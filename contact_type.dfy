/** The kind of a contact record (Models/ContactType.cs), with the numeric
    values its declaration fixes. The identity context registers a string
    representation for the record classes the user store builds
    (IdentityDbContext.cs:92-115), so there the kind is stored by name; the
    numbers are what a serializer without that convention stores. */
module ContactTypes {
  import opened Common

  datatype ContactType = None | Email | Mobile | Telephone

  /** The declared numeric value of each kind. */
  function WireValue(t: ContactType): (n: int)
    ensures n in {0, 1, 2, 4}
  {
    match t
    case None => 0
    case Email => 1
    case Mobile => 2
    case Telephone => 4
  }

  /** Reading a stored number back; numbers that name no kind give null. */
  function FromWireValue(n: int): (r: Option<ContactType>)
    ensures r.Some? <==> n in {0, 1, 2, 4}
  {
    if n == 0 then Some(ContactType.None)
    else if n == 1 then Some(Email)
    else if n == 2 then Some(Mobile)
    else if n == 4 then Some(Telephone)
    else Option.None
  }

  /** Every kind reads back as itself from its numeric value. */
  lemma WireRoundTrip(t: ContactType)
    ensures FromWireValue(WireValue(t)) == Some(t)
  {
  }

  /** Every number that names a kind is that kind's value. */
  lemma WireValueOnto(n: int)
    requires FromWireValue(n).Some?
    ensures WireValue(FromWireValue(n).value) == n
  {
  }

  /** The numeric values are pairwise distinct. */
  lemma WireValueInjective(s: ContactType, t: ContactType)
    requires WireValue(s) == WireValue(t)
    ensures s == t
  {
    WireRoundTrip(s);
    WireRoundTrip(t);
  }

  /** The values fixed by the enum declaration. */
  lemma WireValues()
    ensures WireValue(ContactType.None) == 0 && WireValue(Email) == 1
    ensures WireValue(Mobile) == 2 && WireValue(Telephone) == 4
  {
  }

  /** The name a kind is stored as under the string enum representation:
      the member's declared name. */
  function WireName(t: ContactType): (name: string)
    ensures name in {"None", "Email", "Mobile", "Telephone"}
  {
    match t
    case None => "None"
    case Email => "Email"
    case Mobile => "Mobile"
    case Telephone => "Telephone"
  }

  /** Reading a stored name back; a string that names no kind gives null. */
  function FromWireName(name: string): (r: Option<ContactType>)
    ensures r.Some? <==> name in {"None", "Email", "Mobile", "Telephone"}
  {
    if name == "None" then Some(ContactType.None)
    else if name == "Email" then Some(Email)
    else if name == "Mobile" then Some(Mobile)
    else if name == "Telephone" then Some(Telephone)
    else Option.None
  }

  /** Every kind reads back as itself from its stored name. */
  lemma WireNameRoundTrip(t: ContactType)
    ensures FromWireName(WireName(t)) == Some(t)
  {
  }

  /** Every name that reads back as a kind is that kind's stored name. */
  lemma WireNameOnto(name: string)
    requires FromWireName(name).Some?
    ensures WireName(FromWireName(name).value) == name
  {
  }

  /** Distinct kinds are stored under distinct names. */
  lemma WireNameInjective(s: ContactType, t: ContactType)
    requires WireName(s) == WireName(t)
    ensures s == t
  {
    WireNameRoundTrip(s);
    WireNameRoundTrip(t);
  }
}
