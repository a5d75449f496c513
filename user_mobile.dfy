/** `UserMobile`: the mobile-phone contact record the user store creates
    (Models/UserMobile.cs). */
module UserMobiles {
  import opened Common
  import opened StringExtensions
  import opened ContactTypes
  import opened ContactRecords

  /** The parameterless constructor: sets the base `Type` to Mobile and
      nothing else. */
  method NewUserMobile() returns (record: ContactRecord)
    ensures fresh(record) && record.recordClass == UserMobile
    ensures record.baseType == Mobile
    ensures record.Document() == ContactDocument(Mobile, Option.None, Option.None, false, Option.None)
  {
    record := new ContactRecord(UserMobile);
  }

  /** `UserMobile(phone)`: runs the parameterless constructor, then rejects
      an empty number with `ThrowIfStringEmpty` and stores `phone`. */
  method NewUserMobileWithPhone(phone: Option<string>) returns (r: Result<ContactRecord>)
    ensures r.Err? <==> IsEmpty(phone)
    ensures r.Err? ==> r.error == Argument
    ensures r.Ok? ==> fresh(r.value) && r.value.recordClass == UserMobile && r.value.baseType == Mobile
    ensures r.Ok? ==> r.value.Document() == ContactDocument(Mobile, phone, Option.None, false, Option.None)
  {
    var record := NewUserMobile();
    var check := ThrowIfStringEmpty(phone);
    if check.Fail? {
      return Err(check.error);
    }
    record.value := phone;
    return Ok(record);
  }

  /** Whatever the base `Type` property is set to, a `UserMobile` reports
      Mobile. */
  lemma TypeAlwaysMobile(record: ContactRecord)
    requires record.recordClass == UserMobile
    ensures record.Type() == Mobile && record.Document().contactType == Mobile
  {
  }
}
