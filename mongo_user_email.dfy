/** `MongoUserEmail`: the e-mail contact record the user entity declares
    (Models/MongoUserEmail.cs). */
module MongoUserEmails {
  import opened Common
  import opened StringExtensions
  import opened ContactTypes
  import opened ContactRecords

  /** The validating constructor `MongoUserEmail(email)`: ArgumentException
      for a null, empty or white-space address; otherwise a record holding
      exactly `email`, not normalized and not confirmed. */
  method NewMongoUserEmail(email: Option<string>) returns (r: Result<ContactRecord>)
    ensures r.Err? <==> IsEmpty(email)
    ensures r.Err? ==> r.error == Argument
    ensures r.Ok? ==> fresh(r.value) && r.value.recordClass == MongoUserEmail
    ensures r.Ok? ==> r.value.Document() == ContactDocument(Email, email, Option.None, false, Option.None)
  {
    if IsEmpty(email) {
      return Err(Argument);
    }
    var record := new ContactRecord(MongoUserEmail);
    record.value := email;
    return Ok(record);
  }

  /** `SetNormalizedEmail`: changes the normalized value and nothing else. */
  method SetNormalizedEmail(record: ContactRecord, normalizedEmail: Option<string>)
    requires record.recordClass == MongoUserEmail
    modifies record
    ensures record.Document() == old(record.Document()).(normalizedValue := normalizedEmail)
    ensures record.baseType == old(record.baseType)
  {
    record.normalizedValue := normalizedEmail;
  }
}
