/** `UserEmail`: the e-mail contact record the user store creates
    (Models/UserEmail.cs). */
module UserEmails {
  import opened Common
  import opened StringExtensions
  import opened ContactTypes
  import opened ContactRecords

  /** The validating constructor `UserEmail(email)`: ArgumentException for a
      null, empty or white-space address; otherwise a record of type Email
      holding exactly `email`. */
  method NewUserEmail(email: Option<string>) returns (r: Result<ContactRecord>)
    ensures r.Err? <==> IsEmpty(email)
    ensures r.Err? ==> r.error == Argument
    ensures r.Ok? ==> fresh(r.value) && r.value.recordClass == UserEmail
    ensures r.Ok? ==> r.value.Document() == ContactDocument(Email, email, Option.None, false, Option.None)
  {
    if IsEmpty(email) {
      return Err(Argument);
    }
    var record := new ContactRecord(UserEmail);
    record.value := email;
    return Ok(record);
  }

  /** `SetNormalizedEmail`: changes the normalized value and nothing else. */
  method SetNormalizedEmail(record: ContactRecord, normalizedEmail: Option<string>)
    requires record.recordClass == UserEmail
    modifies record
    ensures record.Document() == old(record.Document()).(normalizedValue := normalizedEmail)
    ensures record.baseType == old(record.baseType)
  {
    record.normalizedValue := normalizedEmail;
  }
}
