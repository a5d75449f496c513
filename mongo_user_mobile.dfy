/** `MongoUserMobile`: a mobile-phone contact record
    (Models/MongoUserMobile.cs). */
module MongoUserMobiles {
  import opened Common
  import opened StringExtensions
  import opened ContactTypes
  import opened ContactRecords

  /** The validating constructor `MongoUserMobile(phone)`: ArgumentException
      for a null, empty or white-space number; otherwise a record holding
      exactly `phone`, of type Mobile, not normalized and not confirmed. */
  method NewMongoUserMobile(phone: Option<string>) returns (r: Result<ContactRecord>)
    ensures r.Err? <==> IsEmpty(phone)
    ensures r.Err? ==> r.error == Argument
    ensures r.Ok? ==> fresh(r.value) && r.value.recordClass == MongoUserMobile
    ensures r.Ok? ==> r.value.Document() == ContactDocument(Mobile, phone, Option.None, false, Option.None)
  {
    if IsEmpty(phone) {
      return Err(Argument);
    }
    var record := new ContactRecord(MongoUserMobile);
    record.value := phone;
    return Ok(record);
  }
}
