# MienDev.AspNetCore.Identity.MongoDB — a verified model

This project models the core of an ASP.NET Core Identity provider that keeps
users and roles in MongoDB. It covers:

- the user entity (`IdentityUser`) and the document it is stored as;
- the contact records a user owns (an e-mail and a phone number, in both the
  `MongoUser…` and the `User…` class families);
- the `ContactType` discriminator: its declared numeric values, and the member names it is stored as under the string enum convention that the identity context registers for the user's record classes;
- the role record (`IdentityRole`);
- the two stores. `UserStore` is the gateway through which ASP.NET Core
  Identity reads and writes users. `RoleStore` inserts, replaces and deletes
  roles;
- the string helpers `IsEmpty` and `IsNotEmpty`.

Each MongoDB collection is a sequence of documents. `InsertOne`,
`ReplaceOne`, `UpdateOne` and `DeleteOne` are functions on that sequence
(`document_collection.dfy`). The `_id` index is the invariant `UniqueKeys`,
which every store method keeps.

Objects that the source updates in place are classes. These are the user,
the contact records and the two stores. Each method states its whole new
state: `Document()` is the record the object would be stored as. A C# null
is `Option.None` (or a null reference for objects). An exception is an
`Err`/`Fail` carrying the exception's kind. A store operation's cancellation
token is the boolean `cancel`.

The model keeps the source's behaviour where it differs from what its
comments or method names promise. `## Findings` logs those cases. Each one
has the as-written member and the evidently intended definition side by
side.

Module layout, one file each:

| module | source |
|---|---|
| `Common` | results, errors, `int32` |
| `StringExtensions` | `Utils/StringExtentsion.cs`, plus the argument guards |
| `Sequences` | LINQ `Any`, `FirstOrDefault`, `Where`, `List.Remove` |
| `ContactTypes` | `Models/ContactType.cs` |
| `ContactRecords` | `Models/MongoUserContactRecord.cs`, and the shared shape of `UserContactRecord` |
| `MongoUserEmails`, `MongoUserMobiles`, `UserEmails`, `UserMobiles` | the four record subclasses |
| `Credentials` | logins and claims |
| `IdentityRoles` | `IdentityRole.cs` |
| `DocumentCollections` | the MongoDB collection operations |
| `IdentityUsers` | `IdentityUser.cs` |
| `IdentityUserStores` | `IdentityUserStore.cs` |
| `IdentityRoleStores` | `IdentityRoleStore.cs` |

## Model

| member | source | states |
|---|---|---|
| StringExtensions.AllWhiteSpaceIff | src/MienDev.AspNetCore.Identity.MongoDB/Utils/StringExtentsion.cs:5-8 | A string is white space throughout iff every character is a .NET white-space character (the `IsNullOrWhiteSpace` test). |
| StringExtensions.IsEmpty | src/MienDev.AspNetCore.Identity.MongoDB/Utils/StringExtentsion.cs:5-8 | `string.IsNullOrWhiteSpace`: true iff the string is null or every character is white space. |
| StringExtensions.IsNotEmpty | src/MienDev.AspNetCore.Identity.MongoDB/Utils/StringExtentsion.cs:9-12 | True iff the string is non-null and has a character that is not white space. |
| StringExtensions.IsEmptyOfNull | src/MienDev.AspNetCore.Identity.MongoDB/Utils/StringExtentsion.cs:5-8 | `IsEmpty(null)` holds. |
| StringExtensions.IsEmptyOfBlank | src/MienDev.AspNetCore.Identity.MongoDB/Utils/StringExtentsion.cs:5-8 | `IsEmpty` holds for "" and for any string of white space only. |
| StringExtensions.IsNotEmptyIff | src/MienDev.AspNetCore.Identity.MongoDB/Utils/StringExtentsion.cs:5-12 | `IsNotEmpty(s)` holds iff `s` has a non-white-space character, and it is the negation of `IsEmpty`. |
| StringExtensions.ThrowIfStringEmpty | src/MienDev.AspNetCore.Identity.MongoDB/Models/UserMobile.cs:15 | Fails, with ArgumentException, exactly when the string is empty in the `IsEmpty` sense. |
| StringExtensions.ThrowIfNull | src/MienDev.AspNetCore.Identity.MongoDB/IdentityUserStore.cs:57 | Fails, with ArgumentNullException, exactly when the argument is null. |
| Common.Outcome.Then | src/MienDev.AspNetCore.Identity.MongoDB/IdentityUserStore.cs:1244-1248 | Sequencing of checks: passes iff both pass; a failed first check is the one reported, and after a passing one the second check's outcome is. |
| Sequences.FirstIndex | src/MienDev.AspNetCore.Identity.MongoDB/IdentityUserStore.cs:235-240 | The index of the first match: it matches, nothing before it matches, and there is none iff no element matches. |
| Sequences.FirstWhere | src/MienDev.AspNetCore.Identity.MongoDB/IdentityUserStore.cs:324 | `FirstOrDefault`: null iff nothing matches; otherwise an element that matches with no match before it. |
| Sequences.RemoveFirst | src/MienDev.AspNetCore.Identity.MongoDB/IdentityUser.cs:291-299 | `List.Remove`: unchanged when nothing matches; otherwise one shorter, and the multiset loses exactly the first match. |
| Sequences.Where | src/MienDev.AspNetCore.Identity.MongoDB/IdentityUserStore.cs:514-517 | Every kept element comes from the input and matches; every matching input element is kept. |
| Sequences.WhereCounts | src/MienDev.AspNetCore.Identity.MongoDB/IdentityUserStore.cs:514-517 | The kept elements are a sub-multiset of the input, and each matching element is kept exactly as often as the input holds it. |
| Sequences.WhereAppend | src/MienDev.AspNetCore.Identity.MongoDB/IdentityUserStore.cs:514-517 | Filtering keeps the input's order: filtering `s + t` gives the filtered `s` followed by the filtered `t`. |
| Sequences.RemoveFirstAt | src/MienDev.AspNetCore.Identity.MongoDB/IdentityUser.cs:291-299 | After removing the first match at k, position i holds the input's i (before k) or i+1 (from k on). |
| ContactTypes.WireValue | src/MienDev.AspNetCore.Identity.MongoDB/Models/ContactType.cs:9-15 | The declared numbers: None 0, Email 1, Mobile 2, Telephone 4. |
| ContactTypes.FromWireValue | src/MienDev.AspNetCore.Identity.MongoDB/Models/ContactType.cs:9-15 | Reads a stored number back; only 0, 1, 2 and 4 name a type. |
| ContactTypes.WireRoundTrip | src/MienDev.AspNetCore.Identity.MongoDB/Models/ContactType.cs:9-15 | Reading back a type's number gives the type. |
| ContactTypes.WireValueOnto | src/MienDev.AspNetCore.Identity.MongoDB/Models/ContactType.cs:9-15 | Every number that reads back as a type is that type's number. |
| ContactTypes.WireValueInjective | src/MienDev.AspNetCore.Identity.MongoDB/Models/ContactType.cs:9-15 | Distinct types have distinct numbers. |
| ContactTypes.WireValues | src/MienDev.AspNetCore.Identity.MongoDB/Models/ContactType.cs:11-14 | The four declared numbers are 0, 1, 2 and 4. |
| ContactTypes.WireName | src/MienDev.AspNetCore.Identity.MongoDB/IdentityDbContext.cs:92-115 | Under `EnumRepresentationConvention(BsonType.String)` a type is stored as its member name: "None", "Email", "Mobile" or "Telephone". |
| ContactTypes.FromWireName | src/MienDev.AspNetCore.Identity.MongoDB/IdentityDbContext.cs:92-115 | Reads a stored name back; exactly the four member names name a type. |
| ContactTypes.WireNameRoundTrip | src/MienDev.AspNetCore.Identity.MongoDB/Models/ContactType.cs:9-15 | Reading back a type's stored name gives the type. |
| ContactTypes.WireNameOnto | src/MienDev.AspNetCore.Identity.MongoDB/Models/ContactType.cs:9-15 | Every name that reads back as a type is that type's stored name. |
| ContactTypes.WireNameInjective | src/MienDev.AspNetCore.Identity.MongoDB/Models/ContactType.cs:9-15 | Distinct types are stored under distinct names. |
| ContactRecords.Confirmed | src/MienDev.AspNetCore.Identity.MongoDB/Models/MongoUserContactRecord.cs:45-49 | Confirming sets the flag and a confirmation time (the given one, else now), and nothing else. |
| ContactRecords.Unconfirmed | src/MienDev.AspNetCore.Identity.MongoDB/Models/MongoUserContactRecord.cs:51-55 | Unconfirming clears the flag and the time, and nothing else. |
| ContactRecords.UnconfirmedIdempotent | src/MienDev.AspNetCore.Identity.MongoDB/Models/MongoUserContactRecord.cs:51-55 | Unconfirming twice is unconfirming once. |
| ContactRecords.UnconfirmedAfterConfirmed | src/MienDev.AspNetCore.Identity.MongoDB/Models/MongoUserContactRecord.cs:45-55 | Confirm then unconfirm leaves the record unconfirmed as if never confirmed. |
| ContactRecords.ContactRecord.Type | src/MienDev.AspNetCore.Identity.MongoDB/Models/MongoUserContactRecord.cs:15 | The stored type for the base classes, and the subclass's fixed type for the e-mail and mobile classes. |
| ContactRecords.ContactRecord.constructor | src/MienDev.AspNetCore.Identity.MongoDB/Models/MongoUserContactRecord.cs:15-35 | A new record has type None (Mobile for `UserMobile`), no values and is unconfirmed. |
| ContactRecords.ContactRecord.SetConfirmed | src/MienDev.AspNetCore.Identity.MongoDB/Models/MongoUserContactRecord.cs:45-49 | The new state is `Confirmed` of the old. |
| ContactRecords.ContactRecord.SetUnConfirmed | src/MienDev.AspNetCore.Identity.MongoDB/Models/MongoUserContactRecord.cs:51-55 | The new state is `Unconfirmed` of the old, whatever time is passed. |
| ContactRecords.ContactRecord.ToString | src/MienDev.AspNetCore.Identity.MongoDB/Models/MongoUserContactRecord.cs:61-64 | The record's value. |
| ContactRecords.ContactRecord.Equals | src/MienDev.AspNetCore.Identity.MongoDB/Models/MongoUserContactRecord.cs:71-74 | NullReferenceException for a null other or a null normalized value; otherwise true iff the normalized values are equal. |
| ContactRecords.EqualsIgnoresAllButNormalizedValue | src/MienDev.AspNetCore.Identity.MongoDB/Models/MongoUserContactRecord.cs:71-74 | Records differing in value, type or confirmation are equal when their normalized values are. |
| ContactRecords.EqualsReflexive | src/MienDev.AspNetCore.Identity.MongoDB/Models/MongoUserContactRecord.cs:71-74 | A record with a normalized value equals itself. |
| MongoUserEmails.NewMongoUserEmail | src/MienDev.AspNetCore.Identity.MongoDB/Models/MongoUserEmail.cs:8-18 | ArgumentException iff the address is empty; otherwise a fresh Email record holding the address, no normalized value, unconfirmed. |
| MongoUserEmails.SetNormalizedEmail | src/MienDev.AspNetCore.Identity.MongoDB/Models/MongoUserEmail.cs:20-23 | Only the normalized value changes. |
| MongoUserMobiles.NewMongoUserMobile | src/MienDev.AspNetCore.Identity.MongoDB/Models/MongoUserMobile.cs:8-18 | ArgumentException iff the number is empty; otherwise a fresh Mobile record holding it, nothing else set. |
| UserEmails.NewUserEmail | src/MienDev.AspNetCore.Identity.MongoDB/Models/UserEmail.cs:12-22 | ArgumentException iff the address is empty; otherwise a fresh Email record holding the address. |
| UserEmails.SetNormalizedEmail | src/MienDev.AspNetCore.Identity.MongoDB/Models/UserEmail.cs:24-27 | Only the normalized value changes. |
| UserMobiles.NewUserMobile | src/MienDev.AspNetCore.Identity.MongoDB/Models/UserMobile.cs:8-11 | A fresh record of type Mobile with nothing else set. |
| UserMobiles.NewUserMobileWithPhone | src/MienDev.AspNetCore.Identity.MongoDB/Models/UserMobile.cs:13-17 | ArgumentException iff the number is empty; otherwise a fresh Mobile record holding it. |
| UserMobiles.TypeAlwaysMobile | src/MienDev.AspNetCore.Identity.MongoDB/Models/UserMobile.cs:25 | A `UserMobile` is of type Mobile whatever its stored base type. |
| Credentials.AppendKeepsUnique | src/MienDev.AspNetCore.Identity.MongoDB/IdentityUserStore.cs:282-299 | Appending a login whose provider and key are absent keeps the logins free of duplicates. |
| Credentials.RemoveLeavesNoMatch | src/MienDev.AspNetCore.Identity.MongoDB/IdentityUserStore.cs:314-331 | Removing the first login with a provider and key from a duplicate-free list keeps it duplicate-free and leaves no such login. |
| IdentityRoles.NewRole | src/MienDev.AspNetCore.Identity.MongoDB/IdentityRole.cs:12-46 | A new role has a null Id, no name or normalized name, a concurrency stamp and no claims. |
| IdentityRoles.NewNamedRole | src/MienDev.AspNetCore.Identity.MongoDB/IdentityRole.cs:18-21 | As the default role, with the given name. |
| DocumentCollections.InsertOne | src/MienDev.AspNetCore.Identity.MongoDB/IdentityUserStore.cs:156-158 | A duplicate-key error iff a stored document has the same `_id`; otherwise the document is appended. |
| DocumentCollections.InsertKeepsUnique | src/MienDev.AspNetCore.Identity.MongoDB/IdentityUserStore.cs:156-158 | A successful insert keeps `_id`s unique. |
| DocumentCollections.ReplaceOne | src/MienDev.AspNetCore.Identity.MongoDB/IdentityUserStore.cs:178-188 | Replaces the first match; matched iff any matches; modified iff the match differed from the replacement. |
| DocumentCollections.UpdateOne | src/MienDev.AspNetCore.Identity.MongoDB/IdentityUserStore.cs:209-213 | Applies the update to the first match only, leaving the rest and the length alone. |
| DocumentCollections.DeleteOne | src/MienDev.AspNetCore.Identity.MongoDB/IdentityRoleStore.cs:77 | Removes the first matching document, keeping the rest in order (the multiset loses exactly that document); unchanged when none matches. |
| DocumentCollections.OverwriteKeepsUnique | src/MienDev.AspNetCore.Identity.MongoDB/IdentityUserStore.cs:178-180 | Overwriting a document with one of the same `_id` keeps `_id`s unique. |
| DocumentCollections.DeleteKeepsUnique | src/MienDev.AspNetCore.Identity.MongoDB/IdentityRoleStore.cs:77 | A delete keeps `_id`s unique. |
| IdentityUsers.NewUserDocument | src/MienDev.AspNetCore.Identity.MongoDB/IdentityUser.cs:29-161 | A new user has an Id and a concurrency stamp, empty lists, no CreatedOn or DeletedOn, count 0 and flags off. |
| IdentityUsers.WrappingIncrement | src/MienDev.AspNetCore.Identity.MongoDB/IdentityUserStore.cs:929 | `int` increment: one more, except Int32.MaxValue wraps to Int32.MinValue. |
| IdentityUsers.IncrementTimesFromZero | src/MienDev.AspNetCore.Identity.MongoDB/IdentityUserStore.cs:924-951 | From a reset count, k failed attempts count to k (k at most Int32.MaxValue). |
| IdentityUsers.IdentityUser.constructor | src/MienDev.AspNetCore.Identity.MongoDB/IdentityUser.cs:29-31 | The new user's document is `NewUserDocument`, with no contact records. |
| IdentityUsers.IdentityUser.WithUserName | src/MienDev.AspNetCore.Identity.MongoDB/IdentityUser.cs:40-43 | As the default user, with the given user name. |
| IdentityUsers.NewUserWithEmail | src/MienDev.AspNetCore.Identity.MongoDB/IdentityUser.cs:45-48 | ArgumentException iff the address is empty; otherwise user name set and an Email record whose value is the address. |
| IdentityUsers.IdentityUser.ToString | src/MienDev.AspNetCore.Identity.MongoDB/IdentityUser.cs:167-170 | The user name. |
| IdentityUsers.IdentityUser.EnableTwoFactorAuthentication | src/MienDev.AspNetCore.Identity.MongoDB/IdentityUser.cs:173-176 | Only the two-factor flag changes, to true (so repeating it changes nothing). |
| IdentityUsers.IdentityUser.DisableTwoFactorAuthentication | src/MienDev.AspNetCore.Identity.MongoDB/IdentityUser.cs:178-181 | Only the two-factor flag changes, to false. |
| IdentityUsers.IdentityUser.EnableLockout | src/MienDev.AspNetCore.Identity.MongoDB/IdentityUser.cs:183-186 | Only the lockout flag changes, to true. |
| IdentityUsers.IdentityUser.DisableLockout | src/MienDev.AspNetCore.Identity.MongoDB/IdentityUser.cs:188-191 | Only the lockout flag changes, to false. |
| IdentityUsers.IdentityUser.SetEmail | src/MienDev.AspNetCore.Identity.MongoDB/IdentityUser.cs:194-198 | ArgumentException iff the address is empty; otherwise only the e-mail changes, to a fresh record holding the address. |
| IdentityUsers.IdentityUser.SetEmailRecord | src/MienDev.AspNetCore.Identity.MongoDB/IdentityUser.cs:200-203 | Only the e-mail record changes, to the given one. |
| IdentityUsers.IdentityUser.SetNormalizedUserName | src/MienDev.AspNetCore.Identity.MongoDB/IdentityUser.cs:205-213 | ArgumentNullException iff the name is null; otherwise only the normalized user name changes. |
| IdentityUsers.IdentityUser.SetPhoneNumber | src/MienDev.AspNetCore.Identity.MongoDB/IdentityUser.cs:215-219 | ArgumentException iff the number is empty; otherwise only the phone changes, to a fresh record holding it. |
| IdentityUsers.IdentityUser.SetPhoneNumberRecord | src/MienDev.AspNetCore.Identity.MongoDB/IdentityUser.cs:221-224 | Only the phone record changes, to the given one. |
| IdentityUsers.IdentityUser.SetPasswordHash | src/MienDev.AspNetCore.Identity.MongoDB/IdentityUser.cs:226-229 | Only the password hash changes. |
| IdentityUsers.IdentityUser.SetSecurityStamp | src/MienDev.AspNetCore.Identity.MongoDB/IdentityUser.cs:231-234 | Only the security stamp changes. |
| IdentityUsers.IdentityUser.SetAccessFailedCount | src/MienDev.AspNetCore.Identity.MongoDB/IdentityUser.cs:236-239 | Only the count changes, to n. |
| IdentityUsers.IdentityUser.ResetAccessFailedCount | src/MienDev.AspNetCore.Identity.MongoDB/IdentityUser.cs:241-244 | Only the count changes, to 0. |
| IdentityUsers.IdentityUser.LockUntil | src/MienDev.AspNetCore.Identity.MongoDB/IdentityUser.cs:246-249 | Only the lockout end changes, to the given time. |
| IdentityUsers.IdentityUser.AddClaim | src/MienDev.AspNetCore.Identity.MongoDB/IdentityUser.cs:251-269 | ArgumentNullException for null; otherwise exactly one claim is appended and nothing else changes. |
| IdentityUsers.IdentityUser.RemoveClaim | src/MienDev.AspNetCore.Identity.MongoDB/IdentityUser.cs:271-279 | ArgumentNullException for null; otherwise the first equal claim, if any, is removed. |
| IdentityUsers.IdentityUser.AddLogin | src/MienDev.AspNetCore.Identity.MongoDB/IdentityUser.cs:281-289 | ArgumentNullException for null; otherwise exactly one login is appended. |
| IdentityUsers.IdentityUser.RemoveLogin | src/MienDev.AspNetCore.Identity.MongoDB/IdentityUser.cs:291-299 | ArgumentNullException for null; otherwise the first login with the same provider and key, if any, is removed. |
| IdentityUsers.IdentityUser.Delete | src/MienDev.AspNetCore.Identity.MongoDB/IdentityUser.cs:301-309 | InvalidOperationException iff already deleted; otherwise DeletedOn becomes now. Either way the user ends deleted, so a second Delete fails. |
| IdentityUserStores.UserStore.constructor | src/MienDev.AspNetCore.Identity.MongoDB/IdentityUserStore.cs:39-42 | A store over the given collections, not disposed. |
| IdentityUserStores.UserStore.ThrowIfCancelOrDispose | src/MienDev.AspNetCore.Identity.MongoDB/IdentityUserStore.cs:1244-1259 | OperationCanceled when cancelled, else ObjectDisposed when disposed, else passes. |
| IdentityUserStores.UserStore.CheckUser | src/MienDev.AspNetCore.Identity.MongoDB/IdentityUserStore.cs:56-57 | The guard, then ArgumentNullException for a null user. |
| IdentityUserStores.UserStore.Dispose | src/MienDev.AspNetCore.Identity.MongoDB/IdentityUserStore.cs:1264-1267 | Sets the flag; afterwards every guarded call fails. No method clears it. |
| IdentityUserStores.UserStore.GetUserId | src/MienDev.AspNetCore.Identity.MongoDB/IdentityUserStore.cs:54-60 | The checks' error, else the user's Id. |
| IdentityUserStores.UserStore.GetUserName | src/MienDev.AspNetCore.Identity.MongoDB/IdentityUserStore.cs:72-78 | The checks' error, else the user name. |
| IdentityUserStores.UserStore.SetUserName | src/MienDev.AspNetCore.Identity.MongoDB/IdentityUserStore.cs:91-100 | Only the user name changes, and `GetUserName` then returns it. |
| IdentityUserStores.UserStore.GetNormalizedUserName | src/MienDev.AspNetCore.Identity.MongoDB/IdentityUserStore.cs:112-118 | The checks' error, else the normalized user name. |
| IdentityUserStores.UserStore.SetNormalizedUserName | src/MienDev.AspNetCore.Identity.MongoDB/IdentityUserStore.cs:131-139 | Only the normalized user name changes, even to null, and the getter then returns it. |
| IdentityUserStores.UserStore.Create | src/MienDev.AspNetCore.Identity.MongoDB/IdentityUserStore.cs:151-161 | Duplicate-key error iff a stored user has the Id; otherwise the user's document is appended, Succeeded. Ids stay unique. |
| IdentityUserStores.UserStore.Update | src/MienDev.AspNetCore.Identity.MongoDB/IdentityUserStore.cs:173-189 | Replaces the active document with the Id; Succeeded iff one was modified. No stamp check. Ids stay unique. |
| IdentityUserStores.UserStore.Delete | src/MienDev.AspNetCore.Identity.MongoDB/IdentityUserStore.cs:201-216 | InvalidOperation iff the user is already deleted; otherwise DeletedOn is set on the user and on the stored document, which is kept; Succeeded. |
| IdentityUserStores.UserStore.FindById | src/MienDev.AspNetCore.Identity.MongoDB/IdentityUserStore.cs:230-241 | ArgumentException for an empty Id; otherwise the first active stored user with the Id (no active one with it precedes it), and null only when every stored user with the Id is deleted. |
| IdentityUserStores.UserStore.FindByName | src/MienDev.AspNetCore.Identity.MongoDB/IdentityUserStore.cs:255-265 | ArgumentException for an empty name; otherwise the first active stored user with that normalized name (no active match precedes it), and null only when every user with the name is deleted. |
| IdentityUserStores.UserStore.AddLogin | src/MienDev.AspNetCore.Identity.MongoDB/IdentityUserStore.cs:282-299 | InvalidOperation iff a login with the same provider and key is present; otherwise exactly one login is appended, keeping logins duplicate-free. The collection is untouched. |
| IdentityUserStores.UserStore.RemoveLogin | src/MienDev.AspNetCore.Identity.MongoDB/IdentityUserStore.cs:314-331 | ArgumentException for an empty provider or key; otherwise the first login with them is removed, if any. A duplicate-free list keeps no such login. |
| IdentityUserStores.UserStore.GetLogins | src/MienDev.AspNetCore.Identity.MongoDB/IdentityUserStore.cs:345-358 | The checks' error, else the user's logins. |
| IdentityUserStores.UserStore.FindByLogin | src/MienDev.AspNetCore.Identity.MongoDB/IdentityUserStore.cs:373-392 | ArgumentException for an empty provider or key; otherwise the first active user holding such a login (no active holder precedes it), and null iff no active user holds one. |
| IdentityUserStores.UserStore.AddToRole | src/MienDev.AspNetCore.Identity.MongoDB/IdentityUserStore.cs:408-424 | Fails, with ArgumentNullException, iff no stored role's name equals the name ignoring case; otherwise that role is appended, and `IsInRole` then holds. |
| IdentityUserStores.UserStore.RemoveFromRole | src/MienDev.AspNetCore.Identity.MongoDB/IdentityUserStore.cs:437-452 | As written: the first matching role is removed and InvalidOperation follows; with no match nothing changes. |
| IdentityUserStores.UserStore.GetRoles | src/MienDev.AspNetCore.Identity.MongoDB/IdentityUserStore.cs:464-470 | The names of the user's roles, in order. |
| IdentityUserStores.UserStore.IsInRole | src/MienDev.AspNetCore.Identity.MongoDB/IdentityUserStore.cs:486-495 | ArgumentException for an empty name; otherwise true iff some role's name equals it ignoring case. |
| IdentityUserStores.UserStore.GetUsersInRole | src/MienDev.AspNetCore.Identity.MongoDB/IdentityUserStore.cs:509-520 | ArgumentException for an empty name; otherwise the stored users, deleted included, with a role whose normalized name is the argument, each as often as it is stored and nothing else. |
| IdentityUserStores.UserStore.SetPasswordHash | src/MienDev.AspNetCore.Identity.MongoDB/IdentityUserStore.cs:625-634 | ArgumentException for an empty hash; otherwise only the hash changes. `GetPasswordHash` returns it, and `HasPassword` then answers false. |
| IdentityUserStores.UserStore.GetPasswordHash | src/MienDev.AspNetCore.Identity.MongoDB/IdentityUserStore.cs:646-652 | The checks' error, else the hash. |
| IdentityUserStores.UserStore.HasPassword | src/MienDev.AspNetCore.Identity.MongoDB/IdentityUserStore.cs:667-673 | As written: true iff no password hash is set. |
| IdentityUserStores.UserStore.SetSecurityStamp | src/MienDev.AspNetCore.Identity.MongoDB/IdentityUserStore.cs:686-695 | ArgumentException for an empty stamp; otherwise only the stamp changes, and the getter returns it. |
| IdentityUserStores.UserStore.GetSecurityStamp | src/MienDev.AspNetCore.Identity.MongoDB/IdentityUserStore.cs:707-713 | The checks' error, else the stamp. |
| IdentityUserStores.UserStore.SetEmail | src/MienDev.AspNetCore.Identity.MongoDB/IdentityUserStore.cs:730-739 | ArgumentException for an empty address; otherwise a fresh `UserEmail` record replaces the old one, and `GetEmail` returns the address. |
| IdentityUserStores.UserStore.GetEmail | src/MienDev.AspNetCore.Identity.MongoDB/IdentityUserStore.cs:751-757 | NullReferenceException without an e-mail record; otherwise its value. |
| IdentityUserStores.UserStore.GetEmailConfirmed | src/MienDev.AspNetCore.Identity.MongoDB/IdentityUserStore.cs:773-780 | NullReferenceException without an e-mail record; otherwise its confirmation flag. |
| IdentityUserStores.UserStore.SetEmailConfirmed | src/MienDev.AspNetCore.Identity.MongoDB/IdentityUserStore.cs:793-801 | The checks' error, with the record untouched; otherwise only the record's confirmation time changes (now, or null when unconfirming), so `GetEmailConfirmed` answers as before. |
| IdentityUserStores.UserStore.FindByEmail | src/MienDev.AspNetCore.Identity.MongoDB/IdentityUserStore.cs:815-821 | ArgumentException for an empty address; otherwise the first stored user, deleted or not, with that normalized e-mail (none precedes it), and null iff there is none. |
| IdentityUserStores.UserStore.GetNormalizedEmail | src/MienDev.AspNetCore.Identity.MongoDB/IdentityUserStore.cs:835-841 | NullReferenceException without an e-mail record; otherwise its normalized value. |
| IdentityUserStores.UserStore.SetNormalizedEmail | src/MienDev.AspNetCore.Identity.MongoDB/IdentityUserStore.cs:854-864 | ArgumentNullException for null, NullReferenceException without a record, with the record untouched on every failure; otherwise only the normalized value changes, and the getter returns it. |
| IdentityUserStores.UserStore.GetLockoutEndDate | src/MienDev.AspNetCore.Identity.MongoDB/IdentityUserStore.cs:884-890 | The checks' error, else the lockout end. |
| IdentityUserStores.UserStore.SetLockoutEndDate | src/MienDev.AspNetCore.Identity.MongoDB/IdentityUserStore.cs:903-912 | Only the lockout end changes, and the getter returns it. |
| IdentityUserStores.UserStore.IncrementAccessFailedCount | src/MienDev.AspNetCore.Identity.MongoDB/IdentityUserStore.cs:924-932 | Only the count changes, by one (wrapping at Int32.MaxValue), and the new count is returned. |
| IdentityUserStores.UserStore.ResetAccessFailedCount | src/MienDev.AspNetCore.Identity.MongoDB/IdentityUserStore.cs:943-951 | Only the count changes, to 0, and the getter returns 0. |
| IdentityUserStores.UserStore.GetAccessFailedCount | src/MienDev.AspNetCore.Identity.MongoDB/IdentityUserStore.cs:963-969 | The checks' error, else the count. |
| IdentityUserStores.UserStore.GetLockoutEnabled | src/MienDev.AspNetCore.Identity.MongoDB/IdentityUserStore.cs:983-989 | The checks' error, else the lockout flag. |
| IdentityUserStores.UserStore.SetLockoutEnabled | src/MienDev.AspNetCore.Identity.MongoDB/IdentityUserStore.cs:1002-1009 | Only the lockout flag changes, and the getter returns it. |
| IdentityUserStores.UserStore.SetPhoneNumber | src/MienDev.AspNetCore.Identity.MongoDB/IdentityUserStore.cs:1026-1034 | ArgumentException for an empty number; otherwise a fresh `UserMobile` record replaces the old one, and `GetPhoneNumber` returns the number. |
| IdentityUserStores.UserStore.GetPhoneNumber | src/MienDev.AspNetCore.Identity.MongoDB/IdentityUserStore.cs:1046-1052 | NullReferenceException without a phone record; otherwise its value. |
| IdentityUserStores.UserStore.GetPhoneNumberConfirmed | src/MienDev.AspNetCore.Identity.MongoDB/IdentityUserStore.cs:1067-1073 | NullReferenceException without a phone record; otherwise its confirmation flag. |
| IdentityUserStores.UserStore.SetPhoneNumberConfirmed | src/MienDev.AspNetCore.Identity.MongoDB/IdentityUserStore.cs:1086-1094 | The checks' error, with the record untouched; otherwise, as written, the confirmation time becomes now whatever the flag, and the confirmation flag is unchanged. |
| IdentityUserStores.UserStore.SetTwoFactorEnabled | src/MienDev.AspNetCore.Identity.MongoDB/IdentityUserStore.cs:1120-1128 | Only the two-factor flag changes, and the getter returns it. |
| IdentityUserStores.UserStore.GetTwoFactorEnabled | src/MienDev.AspNetCore.Identity.MongoDB/IdentityUserStore.cs:1144-1150 | The checks' error, else the two-factor flag. |
| IdentityUserStores.UserStore.SetToken | src/MienDev.AspNetCore.Identity.MongoDB/IdentityUserStore.cs:1163-1171 | Always fails: with the cancel, dispose or null-user check's own error when one fails, and NotImplemented otherwise. |
| IdentityUserStores.UserStore.RemoveToken | src/MienDev.AspNetCore.Identity.MongoDB/IdentityUserStore.cs:1182-1191 | Always fails: with the cancel, dispose or null-user check's own error when one fails, and NotImplemented otherwise. |
| IdentityUserStores.UserStore.GetToken | src/MienDev.AspNetCore.Identity.MongoDB/IdentityUserStore.cs:1203-1214 | Always fails: the cancel, dispose or null-user check's error first, then ArgumentException for an empty provider, then for an empty name, and NotImplemented otherwise. |
| IdentityUserStores.NeedEmail | src/MienDev.AspNetCore.Identity.MongoDB/IdentityUserStore.cs:756 | NullReferenceException iff the user exists and has no e-mail record. |
| IdentityUserStores.NeedPhone | src/MienDev.AspNetCore.Identity.MongoDB/IdentityUserStore.cs:1051 | NullReferenceException iff the user exists and has no phone record. |
| IdentityUserStores.RemoveSameLoginIsRemoveKey | src/MienDev.AspNetCore.Identity.MongoDB/IdentityUserStore.cs:322-328 | Removing the login found by provider and key is removing the first login with that provider and key. |
| IdentityUserStores.SameFilterSameIndex | src/MienDev.AspNetCore.Identity.MongoDB/IdentityUserStore.cs:322-328 | Filters that agree on every element find the same first match and remove the same element. |
| IdentityUserStores.FindByIdAfterSoftDelete | src/MienDev.AspNetCore.Identity.MongoDB/IdentityUserStore.cs:201-241 | After a user's soft delete, looking its Id up finds nothing. |
| IdentityUserStores.SoftDeleteKeepsDocument | src/MienDev.AspNetCore.Identity.MongoDB/IdentityUserStore.cs:201-216 | Soft delete keeps every document; the user's document stays in place with DeletedOn set. |
| IdentityUserStores.UpdateOfSoftDeletedFails | src/MienDev.AspNetCore.Identity.MongoDB/IdentityUserStore.cs:173-189 | Updating a user whose stored document is deleted matches nothing, changes nothing and fails. |
| IdentityUserStores.FindByIdAfterUpdate | src/MienDev.AspNetCore.Identity.MongoDB/IdentityUserStore.cs:173-241 | After an update that matched, looking the Id up returns the written document. |
| IdentityUserStores.UpdateIgnoresConcurrencyStamp | src/MienDev.AspNetCore.Identity.MongoDB/IdentityUserStore.cs:178-180 | A user with any concurrency stamp matches the same document and is written in the same place. |
| IdentityUserStores.FindByIdAfterCreate | src/MienDev.AspNetCore.Identity.MongoDB/IdentityUserStore.cs:151-241 | After creating an active user, looking its Id up returns it. |
| IdentityUserStores.FindByEmailAfterCreate | src/MienDev.AspNetCore.Identity.MongoDB/IdentityUserStore.cs:151-161 | After creating a user whose normalized e-mail nobody has, looking that e-mail up returns it. |
| IdentityUserStores.FindByEmailReturnsDeleted | src/MienDev.AspNetCore.Identity.MongoDB/IdentityUserStore.cs:815-821 | Whenever the first stored user with an address is soft-deleted, looking the address up returns that user, while looking up any Id never does. |
| IdentityUserStores.UsersInRoleAfterCreate | src/MienDev.AspNetCore.Identity.MongoDB/IdentityUserStore.cs:151-161 | After a create, the users in a role are the earlier ones in the same order, followed by the new user when it holds the role. |
| IdentityUserStores.FirstWhereAfterAppend | src/MienDev.AspNetCore.Identity.MongoDB/IdentityUserStore.cs:820 | The first match of `s + [x]` is `x` when nothing in `s` matches. |
| IdentityUserStores.RemoveFromRoleAsWritten | src/MienDev.AspNetCore.Identity.MongoDB/IdentityUserStore.cs:443-449 | With a match: one role fewer, the first match gone, then InvalidOperation; without: unchanged. |
| IdentityUserStores.RemoveFromRoleIntended | src/MienDev.AspNetCore.Identity.MongoDB/IdentityUserStore.cs:443-449 | No matching role remains, and every non-matching role is kept. |
| IdentityUserStores.RemoveFromRoleThrowsOnFirstMatch | src/MienDev.AspNetCore.Identity.MongoDB/IdentityUserStore.cs:443-449 | Any user holding a role whose name is exactly the one asked for: the written code throws; the intended removal leaves no matching role and strictly fewer roles. |
| IdentityUserStores.HasPasswordAsWritten | src/MienDev.AspNetCore.Identity.MongoDB/IdentityUserStore.cs:667-673 | As written: true iff the hash is null or all white space. |
| IdentityUserStores.HasPasswordIntended | src/MienDev.AspNetCore.Identity.MongoDB/IdentityUserStore.cs:657-673 | As documented: true iff the hash is non-null and has a non-white-space character. |
| IdentityUserStores.HasPasswordInverted | src/MienDev.AspNetCore.Identity.MongoDB/IdentityUserStore.cs:667-673 | For every hash the store accepts, the written test says no password and the intended one says a password. |
| IdentityUserStores.PhoneConfirmedAsWritten | src/MienDev.AspNetCore.Identity.MongoDB/IdentityUserStore.cs:1091 | The confirmation time becomes now; nothing else changes. |
| IdentityUserStores.PhoneConfirmedIntended | src/MienDev.AspNetCore.Identity.MongoDB/IdentityUserStore.cs:793-801 | A confirmation time iff confirming, then now; nothing else changes. |
| IdentityUserStores.PhoneUnconfirmKeepsTime | src/MienDev.AspNetCore.Identity.MongoDB/IdentityUserStore.cs:1086-1094 | Unconfirming leaves a confirmation time as written and none as intended. |
| IdentityRoleStores.ThrowIfParaNull | src/MienDev.AspNetCore.Identity.MongoDB/IdentityRoleStore.cs:168-174 | ArgumentNullException iff some argument is null. |
| IdentityRoleStores.NewRoleStore | src/MienDev.AspNetCore.Identity.MongoDB/IdentityRoleStore.cs:21-25 | ArgumentNullException iff the collection is null; otherwise a store over it, not disposed. |
| IdentityRoleStores.RoleStore.constructor | src/MienDev.AspNetCore.Identity.MongoDB/IdentityRoleStore.cs:21-25 | A store over the given collection, not disposed. |
| IdentityRoleStores.RoleStore.ThrowIfCancelOrParaNull | src/MienDev.AspNetCore.Identity.MongoDB/IdentityRoleStore.cs:181-188 | ObjectDisposed first, then OperationCanceled, then ArgumentNull for a null role. |
| IdentityRoleStores.RoleStore.Dispose | src/MienDev.AspNetCore.Identity.MongoDB/IdentityRoleStore.cs:163-166 | Afterwards every guarded call fails with ObjectDisposed. |
| IdentityRoleStores.RoleStore.Create | src/MienDev.AspNetCore.Identity.MongoDB/IdentityRoleStore.cs:35-42 | Duplicate-key error iff a stored role has the Id; otherwise the role is appended, Succeeded. |
| IdentityRoleStores.RoleStore.Update | src/MienDev.AspNetCore.Identity.MongoDB/IdentityRoleStore.cs:52-63 | After the checks, the first role with the Id is replaced (no stamp check) and NotImplemented is raised anyway. |
| IdentityRoleStores.RoleStore.Delete | src/MienDev.AspNetCore.Identity.MongoDB/IdentityRoleStore.cs:73-80 | Removes the first role with the Id (a hard delete); Succeeded whether or not one matched. |
| IdentityRoleStores.RoleStore.GetRoleId | src/MienDev.AspNetCore.Identity.MongoDB/IdentityRoleStore.cs:90-95 | The checks' error, else the role's Id unchanged. |
| IdentityRoleStores.DeleteRemovesId | src/MienDev.AspNetCore.Identity.MongoDB/IdentityRoleStore.cs:73-80 | With unique Ids, no role with the Id is left after a delete, and one fewer role when one matched. |
| IdentityRoleStores.SecondNewRoleCollides | src/MienDev.AspNetCore.Identity.MongoDB/IdentityRoleStore.cs:35-42 | Two default-constructed roles both have a null Id, so creating the second is a duplicate-key error. |

## Left out

- ContactTypes.FromWireName: accepts exactly the four member names. It does not model the lenient parsing of the driver's enum serializer, such as numeric strings. That parsing belongs to the MongoDB driver, which is not part of this model.
- The MongoDB driver itself: connections, serialisation and BSON class maps (`IdentityDbContext.cs`, `MongoConfig.cs`). The collections are sequences of documents, and the driver's translation of LINQ filters to queries is taken to mean what the filters say in memory.
- `async`/`Task` and real cancellation tokens. Each call is one sequential step, and the token is the boolean `cancel`.
- Dependency injection and option wiring (`MongoIdentityOptionBuilderExtentsion.cs`, `OptionBuilderExtentsion.cs`, `MongoIdentityOption.cs`).
- `MongoRoleStore.cs`: every member is a stub.
- The user store's claim methods (`GetClaimsAsync`, `AddClaimsAsync`, `ReplaceClaimAsync`, `RemoveClaimsAsync`, `GetUsersForClaimAsync`). They throw NotImplementedException before any check, so they have no behaviour to state.
- The role store's `GetRoleNameAsync`, `SetRoleNameAsync`, `GetNormalizedRoleNameAsync`, `SetNormalizedRoleNameAsync`, `FindByIdAsync`, `FindByNameAsync` and claim methods. Each throws NotImplementedException unconditionally.
- The `Users` and `Roles` query properties (an `IQueryable` over the collection), and `ConvertIdFromString`/`ConvertIdToString`, which are identity on strings.
- `Guid.NewGuid()` and `DateTime.UtcNow`. The new Id, the new concurrency stamp and the current time are parameters. `IdentityUser.GenerateId` is not called by anything modelled.
- `StringComparison.CurrentCultureIgnoreCase`. The store carries the current culture's case folding `fold`, and names are equal ignoring case iff their folds are equal. The culture's actual folding rules are not modelled.
- `UserEmailConvter.cs` (a TypeConverter hook) and `ExceptionThrowExtenstions.cs`. The latter's `ThrowIfNull` is the ArgumentNullException guard `StringExtensions.ThrowIfNull`; `ThrowIfStringEmpty`, whose source is not part of this model, is taken to be the `IsEmpty` test raising ArgumentException.
- The C# login and claim classes (`UserLogin`, `MongoUserLogin`, `MongoUserClaim`) are not part of this model. A login is its provider, key and display name, equal when provider and key are; a claim is its type and value.
- `UserContactRecord`, the base of `UserEmail`/`UserMobile`, is not part of this model. It is taken to have the shape of `MongoUserContactRecord`, and one `ContactRecord` class with a `recordClass` tag stands for all six record classes.
- The store builds `UserEmail`/`UserMobile` records where the entity declares `MongoUserEmail`/`MongoUserContactRecord` properties. The model lets a user hold any record class and keeps the class the code constructs.
- Exception messages and parameter names are not modelled, only the exception kind.
- IdentityUsers.IncrementTimesFromZero: states the count only up to Int32.MaxValue increments; beyond that `WrappingIncrement` gives the wrap-around.
- Aliasing between a user's e-mail and phone record is not excluded. The store's record setters state the new state of the record they change, not of the whole user document.

## Findings

| source | as written | input that shows it | evidently intended | confidence | as-written member | corrected member |
|---|---|---|---|---|---|---|
| src/MienDev.AspNetCore.Identity.MongoDB/IdentityUserStore.cs:667-673 | `HasPasswordAsync` returns whether the hash is null or white space | any non-empty hash set through `SetPasswordHashAsync` gives false | true when a hash is set, as its documentation says | high; not executed | IdentityUserStores.HasPasswordAsWritten | IdentityUserStores.HasPasswordIntended |
| src/MienDev.AspNetCore.Identity.MongoDB/IdentityUserStore.cs:443-449 | removes from `user.Roles` while enumerating a lazy `Where` over it | a user with one role named "Admin", role name "Admin": the first removal succeeds, then the enumerator throws InvalidOperationException | every matching role removed without an exception | high; not executed | IdentityUserStores.RemoveFromRoleAsWritten | IdentityUserStores.RemoveFromRoleIntended |
| src/MienDev.AspNetCore.Identity.MongoDB/IdentityUserStore.cs:1091 | `ConfirmedOn = DateTime.UtcNow` whatever `confirmed` is | `confirmed = false` leaves a confirmation time | `confirmed ? now : null`, as `SetEmailConfirmedAsync` does | medium; not executed | IdentityUserStores.PhoneConfirmedAsWritten | IdentityUserStores.PhoneConfirmedIntended |
