/** A contact record: an e-mail address or a phone number with its
    confirmation state (Models/MongoUserContactRecord.cs). The e-mail and
    mobile subclasses differ only in their constructors and in a `Type`
    getter that they override with a constant, so the model has one class
    that remembers which C# class it stands for. */
module ContactRecords {
  import opened Common
  import opened ContactTypes

  /** The C# class a contact record object was created as. `UserEmail` and
      `UserMobile` derive from `UserContactRecord`, whose shape is taken to be
      that of `MongoUserContactRecord`. */
  datatype RecordClass =
    | MongoUserContactRecord | MongoUserEmail | MongoUserMobile
    | UserContactRecord | UserEmail | UserMobile

  /** A contact record as it is stored inside a user document. */
  datatype ContactDocument = ContactDocument(
    contactType: ContactType,
    value: Option<string>,
    normalizedValue: Option<string>,
    isComfirmed: bool,
    confirmedOn: Option<Time>)

  /** `SetConfirmed(timeOn)` on a stored record: confirmed, at `timeOn` when it
      is given and at the current time `now` otherwise. */
  function Confirmed(d: ContactDocument, timeOn: Option<Time>, now: Time): (r: ContactDocument)
    ensures r.isComfirmed && r.confirmedOn.Some?
    ensures timeOn.Some? ==> r.confirmedOn == timeOn
    ensures timeOn.None? ==> r.confirmedOn == Some(now)
    ensures r.(isComfirmed := d.isComfirmed, confirmedOn := d.confirmedOn) == d
  {
    d.(isComfirmed := true, confirmedOn := Some(if timeOn.Some? then timeOn.value else now))
  }

  /** `SetUnConfirmed` on a stored record: unconfirmed with no confirmation time. */
  function Unconfirmed(d: ContactDocument): (r: ContactDocument)
    ensures !r.isComfirmed && r.confirmedOn.None?
    ensures r.(isComfirmed := d.isComfirmed, confirmedOn := d.confirmedOn) == d
  {
    d.(isComfirmed := false, confirmedOn := Option.None)
  }

  /** Unconfirming twice is unconfirming once. */
  lemma UnconfirmedIdempotent(d: ContactDocument)
    ensures Unconfirmed(Unconfirmed(d)) == Unconfirmed(d)
  {
  }

  /** Unconfirming undoes any confirmation. */
  lemma UnconfirmedAfterConfirmed(d: ContactDocument, timeOn: Option<Time>, now: Time)
    ensures Unconfirmed(Confirmed(d, timeOn, now)) == Unconfirmed(d)
  {
  }

  class ContactRecord {
    /** The C# class this object was created as. */
    const recordClass: RecordClass
    /** The value the base class's `Type` property holds. */
    var baseType: ContactType
    var value: Option<string>
    var normalizedValue: Option<string>
    var isComfirmed: bool
    var confirmedOn: Option<Time>

    /** The `Type` getter: the e-mail and mobile classes override it with a
        constant, whatever the base property holds. */
    function Type(): (t: ContactType)
      reads this
      ensures recordClass in {MongoUserEmail, UserEmail} ==> t == Email
      ensures recordClass in {MongoUserMobile, UserMobile} ==> t == Mobile
      ensures recordClass in {MongoUserContactRecord, UserContactRecord} ==> t == baseType
    {
      match recordClass
      case MongoUserEmail => Email
      case UserEmail => Email
      case MongoUserMobile => Mobile
      case UserMobile => Mobile
      case _ => baseType
    }

    /** What this record stores: each property through its getter. */
    function Document(): ContactDocument
      reads this
    {
      ContactDocument(Type(), value, normalizedValue, isComfirmed, confirmedOn)
    }

    /** A record with every property at its default: `Type` None, nothing
        else set. `UserMobile`'s parameterless constructor then sets the base
        `Type` to Mobile. */
    constructor (recordClass: RecordClass)
      ensures this.recordClass == recordClass
      ensures baseType == (if recordClass == UserMobile then Mobile else ContactType.None)
      ensures value.None? && normalizedValue.None?
      ensures !isComfirmed && confirmedOn.None?
    {
      this.recordClass := recordClass;
      baseType := if recordClass == UserMobile then Mobile else ContactType.None;
      value := Option.None;
      normalizedValue := Option.None;
      isComfirmed := false;
      confirmedOn := Option.None;
    }

    /** `SetConfirmed(timeOn)`; `now` stands for DateTime.UtcNow. */
    method SetConfirmed(timeOn: Option<Time>, now: Time)
      modifies this
      ensures Document() == Confirmed(old(Document()), timeOn, now)
      ensures baseType == old(baseType)
    {
      isComfirmed := true;
      confirmedOn := Some(if timeOn.Some? then timeOn.value else now);
    }

    /** `SetUnConfirmed(timeOn)`: the argument is ignored. */
    method SetUnConfirmed(timeOn: Option<Time>)
      modifies this
      ensures Document() == Unconfirmed(old(Document()))
      ensures baseType == old(baseType)
    {
      isComfirmed := false;
      confirmedOn := Option.None;
    }

    /** `ToString`: the raw value, not the normalized one. */
    function ToString(): (s: Option<string>)
      reads this
      ensures s == Document().value
    {
      value
    }

    /** `Equals(other)`: compares the normalized values and nothing else. It
        dereferences `other` and `other.NormalizedValue`, so a null in either
        throws NullReferenceException. */
    function Equals(other: ContactRecord?): (r: Result<bool>)
      reads this, other
      ensures r.Err? <==> other == null || other.normalizedValue.None?
      ensures r.Err? ==> r.error == NullReference
      ensures r.Ok? ==> (r.value <==> normalizedValue == other.normalizedValue)
    {
      if other == null || other.normalizedValue.None? then Err(NullReference)
      else Ok(other.normalizedValue == normalizedValue)
    }
  }

  /** Two records with the same non-null normalized value are equal, however
      their values, types and confirmation states differ. */
  lemma EqualsIgnoresAllButNormalizedValue(a: ContactRecord, b: ContactRecord)
    requires a.normalizedValue == b.normalizedValue && b.normalizedValue.Some?
    ensures a.Equals(b) == Ok(true) && b.Equals(a) == Ok(true)
  {
  }

  /** A record is equal to itself exactly when it has a normalized value. */
  lemma EqualsReflexive(a: ContactRecord)
    ensures a.Equals(a) == (if a.normalizedValue.Some? then Ok(true) else Err(NullReference))
  {
  }
}
