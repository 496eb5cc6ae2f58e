/**
 * How the contact source turns directory entries into contacts: the
 * fixed-shape records of a contact list (`getContactItems`) and the single
 * record of a lookup by id (`populateResultContact`).
 */
module Contacts {
  import opened Php
  import opened Directory

  /** `StorageType::Team` of the Contacts module. */
  const TeamStorage := "team"
  /** `PrimaryEmail::Business` of the Contacts module. */
  const PrimaryEmailBusiness := 1

  /** The authenticated user, as far as this source reads it. */
  datatype User = User(id: int, publicId: string)

  /** The configured attribute names for uid, e-mail and display name, lower-cased at init. */
  datatype Fields = Fields(uid: string, email: string, name: string)

  /** `$aItem[$key][0]` on an entry whose keys are already lower-cased, when it is set. */
  function FirstValue(attrs: Pairs<seq<string>>, key: string): Option<string> {
    match Get(attrs, key)
    case Some(vs) => if |vs| > 0 then Some(vs[0]) else None
    case None => None
  }

  /** The first value of attribute `key`, looked up case-insensitively in the entry as returned. */
  function First(raw: Pairs<seq<string>>, key: string): Option<string> {
    match LastWith(raw, key)
    case Some(vs) => if |vs| > 0 then Some(vs[0]) else None
    case None => None
  }

  lemma FirstValueLowered(raw: Pairs<seq<string>>, key: string)
    ensures FirstValue(ChangeKeyCase(raw), key) == First(raw, key)
  {
    ChangeKeyCaseGet(raw, key);
  }

  // =====================================================================
  // The contact list (Module.php:150-169)
  // =====================================================================

  datatype ListContact = ListContact(
    uuid: string,
    idUser: int,
    fullName: string,
    firstName: string,
    lastName: string,
    viewEmail: string,
    storage: string,
    frequency: int,
    dateModified: int,
    eTag: string,
    itsMe: bool)

  /** The list's e-mail: the first value unless PHP's `empty()` holds of it. */
  function ListEmail(first: Option<string>): (e: string)
    ensures e == "" || (first == Some(e) && !Empty(e))
    ensures first.Some? && !Empty(first.value) ==> e == first.value
  {
    match first
    case Some(x) => if Empty(x) then "" else x
    case None => ""
  }

  /** The fields every list record has whatever the entry holds. */
  predicate ListDefaults(c: ListContact, user: User) {
    && c.idUser == 0
    && c.firstName == ""
    && c.lastName == ""
    && c.storage == TeamStorage
    && c.frequency == 0
    && c.dateModified == 0
    && c.eTag == ""
    && (c.itsMe <==> c.viewEmail == user.publicId)
  }

  /**
   * The record one raw entry contributes to the list, or None when it is
   * dropped. The keys of the entry are compared case-insensitively.
   */
  function ListEntry(fields: Fields, user: User, item: RawItem): (r: Option<ListContact>)
    ensures r.None? <==> item.NotAnEntry? || First(item.attributes, fields.uid).None?
    ensures r.Some? ==>
      && item.Entry?
      && Some(r.value.uuid) == First(item.attributes, fields.uid)
      && r.value.fullName == First(item.attributes, fields.name).GetOr("")
      && r.value.viewEmail == ListEmail(First(item.attributes, fields.email))
      && ListDefaults(r.value, user)
  {
    match item
    case NotAnEntry => None
    case Entry(raw) =>
      var attrs := ChangeKeyCase(raw);
      FirstValueLowered(raw, fields.uid);
      FirstValueLowered(raw, fields.name);
      FirstValueLowered(raw, fields.email);
      match FirstValue(attrs, fields.uid)
      case None => None
      case Some(id) =>
        var email := ListEmail(FirstValue(attrs, fields.email));
        Some(ListContact(id, 0, FirstValue(attrs, fields.name).GetOr(""), "", "",
                         email, TeamStorage, 0, 0, "", email == user.publicId))
  }

  function Kept(r: Option<ListContact>): seq<ListContact> {
    match r
    case Some(c) => [c]
    case None => []
  }

  /** The list built from the paginated entries, in their order. */
  function ListEntries(fields: Fields, user: User, items: seq<RawItem>): (r: seq<ListContact>)
    ensures |r| <= |items|
  {
    if items == [] then []
    else ListEntries(fields, user, items[..|items| - 1]) + Kept(ListEntry(fields, user, items[|items| - 1]))
  }

  /** The number of entries the list drops. */
  function Dropped(fields: Fields, items: seq<RawItem>): nat {
    if items == [] then 0
    else (if items[0].NotAnEntry? || First(items[0].attributes, fields.uid).None? then 1 else 0)
         + Dropped(fields, items[1..])
  }

  /** Mapping a concatenation maps each part, in order. */
  lemma {:induction false} ListEntriesAppend(fields: Fields, user: User, a: seq<RawItem>, b: seq<RawItem>)
    ensures ListEntries(fields, user, a + b) == ListEntries(fields, user, a) + ListEntries(fields, user, b)
  {
    if b == [] {
      assert a + b == a;
    } else {
      var n := |b| - 1;
      assert (a + b)[..|a + b| - 1] == a + b[..n];
      assert (a + b)[|a + b| - 1] == b[n];
      ListEntriesAppend(fields, user, a, b[..n]);
    }
  }

  /** N raw entries of which K are dropped give exactly N - K records. */
  lemma {:induction false} ListEntriesCount(fields: Fields, user: User, items: seq<RawItem>)
    ensures |ListEntries(fields, user, items)| + Dropped(fields, items) == |items|
  {
    if items != [] {
      ListEntriesCount(fields, user, items[1..]);
      ListEntriesAppend(fields, user, [items[0]], items[1..]);
      assert [items[0]] + items[1..] == items;
      assert [items[0]][..0] == [];
    }
  }

  /** No entry is dropped exactly when every entry yields a record. */
  lemma {:induction false} DroppedNone(fields: Fields, user: User, items: seq<RawItem>)
    ensures Dropped(fields, items) == 0 <==> forall i :: 0 <= i < |items| ==> ListEntry(fields, user, items[i]).Some?
  {
    if items != [] {
      var rest := items[1..];
      DroppedNone(fields, user, rest);
      assert forall i :: 0 <= i < |rest| ==> rest[i] == items[i + 1];
      if Dropped(fields, items) == 0 {
        forall i | 0 <= i < |items| ensures ListEntry(fields, user, items[i]).Some? {
          if i > 0 { assert items[i] == rest[i - 1]; }
        }
      }
    }
  }

  /** No entry is added: the list is at most as long as the input, and as long exactly when none is dropped. */
  lemma ListEntriesLength(fields: Fields, user: User, items: seq<RawItem>)
    ensures |ListEntries(fields, user, items)| <= |items|
    ensures |ListEntries(fields, user, items)| == |items|
        <==> forall i :: 0 <= i < |items| ==> ListEntry(fields, user, items[i]).Some?
  {
    ListEntriesCount(fields, user, items);
    DroppedNone(fields, user, items);
  }

  /** A record is in the list iff some entry of the input yields it. */
  lemma {:induction false} ListEntriesMembers(fields: Fields, user: User, items: seq<RawItem>, c: ListContact)
    ensures c in ListEntries(fields, user, items)
        <==> exists i :: 0 <= i < |items| && ListEntry(fields, user, items[i]) == Some(c)
  {
    if items != [] {
      var n := |items| - 1;
      var prefix := items[..n];
      var last := ListEntry(fields, user, items[n]);
      ListEntriesMembers(fields, user, prefix, c);
      assert ListEntries(fields, user, items) == ListEntries(fields, user, prefix) + Kept(last);
      assert c in Kept(last) <==> last == Some(c);
      assert forall i :: 0 <= i < n ==> prefix[i] == items[i];
      if c in ListEntries(fields, user, items) && c !in Kept(last) {
        var i :| 0 <= i < n && ListEntry(fields, user, prefix[i]) == Some(c);
        assert ListEntry(fields, user, items[i]) == Some(c);
      }
    }
  }

  /** Every record of the list has the fixed fields, and `ItsMe` iff its e-mail is the user's public id. */
  lemma ListEntriesDefaults(fields: Fields, user: User, items: seq<RawItem>)
    ensures forall c :: c in ListEntries(fields, user, items) ==> ListDefaults(c, user)
  {
    forall c | c in ListEntries(fields, user, items)
      ensures ListDefaults(c, user)
    {
      ListEntriesMembers(fields, user, items, c);
    }
  }

  /** The `foreach` of `getContactItems` over the paginated entries. */
  method MapListEntries(fields: Fields, user: User, items: seq<RawItem>) returns (contacts: seq<ListContact>)
    ensures contacts == ListEntries(fields, user, items)
  {
    contacts := [];
    var i := 0;
    while i < |items|
      invariant 0 <= i <= |items|
      invariant contacts == ListEntries(fields, user, items[..i])
    {
      assert items[..i + 1][..i] == items[..i];
      var item := items[i];
      if item.Entry? {
        var attrs := ChangeKeyCase(item.attributes);
        var id := FirstValue(attrs, fields.uid);
        if id.Some? {
          var email := ListEmail(FirstValue(attrs, fields.email));
          contacts := contacts + [ListContact(id.value, 0, FirstValue(attrs, fields.name).GetOr(""), "", "",
                                              email, TeamStorage, 0, 0, "", email == user.publicId)];
        }
      }
      i := i + 1;
    }
    assert items[..i] == items;
  }

  // =====================================================================
  // The single record (Module.php:183-232)
  // =====================================================================

  /** A value of the PHP array that becomes the contact. */
  datatype Value = Str(s: string) | Num(n: int) | Flag(b: bool)

  type Record = map<string, Value>

  /** `strlen($v) === 0`: only the empty string and `false` have an empty string form. */
  predicate Blank(v: Value) {
    v == Str("") || v == Flag(false)
  }

  /** The record before the contact map is applied. */
  function Seed(id: string, user: User): Record {
    map[
      "UUID" := Str(id),
      "IdUser" := Num(user.id),
      "UseFriendlyName" := Flag(true),
      "Storage" := Str(TeamStorage),
      "ReadOnly" := Flag(true),
      "Global" := Flag(true),
      "IdContact" := Str(id),
      "IdContactStr" := Str(id),
      "PrimaryEmail" := Num(PrimaryEmailBusiness)]
  }

  /** What an attribute contributes when it is present: its first value, or "". */
  function Provided(attrs: Pairs<seq<string>>, key: string): string {
    match Get(attrs, key)
    case Some(vs) => if |vs| > 0 then vs[0] else ""
    case None => ""
  }

  /** Field `field` may still be written. */
  predicate Open(c: Record, field: string) {
    field !in c || Blank(c[field])
  }

  /** One turn of the mapping loop: write the field if the attribute is there and the field is still open. */
  function MapStep(c: Record, attrs: Pairs<seq<string>>, key: string, field: string): Record {
    if Get(attrs, key).Some? && Open(c, field) then c[field := Str(Provided(attrs, key))] else c
  }

  /** The mapping loop over the (lower-cased) contact map, in its order. */
  function ApplyMap(c: Record, attrs: Pairs<seq<string>>, m: Pairs<string>): (r: Record)
    ensures c.Keys <= r.Keys <= c.Keys + Targets(m)
  {
    if m == [] then c
    else
      var n := |m| - 1;
      assert Targets(m[..n]) <= Targets(m) by {
        forall f | f in Targets(m[..n]) ensures f in Targets(m) {
          var i :| 0 <= i < n && m[..n][i].1 == f;
          assert m[i].1 == f;
        }
      }
      MapStep(ApplyMap(c, attrs, m[..n]), attrs, m[n].0, m[n].1)
  }

  /** The fields a contact map writes to. */
  function Targets(m: Pairs<string>): set<string> {
    set i | 0 <= i < |m| :: m[i].1
  }

  /** The display e-mail: BusinessEmail, else PersonalEmail, else "". */
  function ViewEmail(c: Record): (v: Value)
    ensures "BusinessEmail" in c && c["BusinessEmail"] != Str("") ==> v == c["BusinessEmail"]
    ensures v != Str("") ==> ("BusinessEmail" in c && v == c["BusinessEmail"]) || ("PersonalEmail" in c && v == c["PersonalEmail"])
  {
    if "BusinessEmail" in c && c["BusinessEmail"] != Str("") then c["BusinessEmail"]
    else if "PersonalEmail" in c && c["PersonalEmail"] != Str("") then c["PersonalEmail"]
    else Str("")
  }

  /** `populateResultContact` on the item the lookup found. */
  function PopulateContact(contactMap: Pairs<string>, fields: Fields, user: User, item: RawItem): (r: Option<Record>)
    ensures r.None? <==> item.NotAnEntry? || First(item.attributes, fields.uid).None?
  {
    match item
    case NotAnEntry => None
    case Entry(raw) =>
      FirstValueLowered(raw, fields.uid);
      var attrs := ChangeKeyCase(raw);
      match FirstValue(attrs, fields.uid)
      case None => None
      case Some(id) =>
        var c := ApplyMap(Seed(id, user), attrs, ChangeKeyCase(contactMap));
        var email := ViewEmail(c);
        Some(c["ViewEmail" := email]["ItsMe" := Flag(email == Str(user.publicId))])
  }

  /** `populateResultContact`, with its `foreach` over the contact map. */
  method PopulateResultContact(contactMap: Pairs<string>, fields: Fields, user: User, item: RawItem)
    returns (r: Option<Record>)
    ensures r == PopulateContact(contactMap, fields, user, item)
  {
    r := None;
    if item.Entry? {
      var m := ChangeKeyCase(contactMap);
      var attrs := ChangeKeyCase(item.attributes);
      var id := FirstValue(attrs, fields.uid);
      if id.Some? {
        var c := Seed(id.value, user);
        var i := 0;
        while i < |m|
          invariant 0 <= i <= |m|
          invariant c == ApplyMap(Seed(id.value, user), attrs, m[..i])
        {
          assert m[..i + 1][..i] == m[..i];
          var (key, field) := m[i];
          if Get(attrs, key).Some? && (field !in c || Blank(c[field])) {
            c := c[field := Str(Provided(attrs, key))];
          }
          i := i + 1;
        }
        assert m[..i] == m;
        var email := Str("");
        if "PersonalEmail" in c && c["PersonalEmail"] != Str("") {
          email := c["PersonalEmail"];
        }
        if "BusinessEmail" in c && c["BusinessEmail"] != Str("") {
          email := c["BusinessEmail"];
        }
        c := c["ViewEmail" := email];
        c := c["ItsMe" := Flag(email == Str(user.publicId))];
        r := Some(c);
      }
    }
  }

  // ---------------------------------------------------------------------
  // Properties of the mapping loop
  // ---------------------------------------------------------------------

  lemma {:induction false} ApplyMapSplit(c: Record, attrs: Pairs<seq<string>>, a: Pairs<string>, b: Pairs<string>)
    ensures ApplyMap(c, attrs, a + b) == ApplyMap(ApplyMap(c, attrs, a), attrs, b)
  {
    if b == [] {
      assert a + b == a;
    } else {
      var n := |b| - 1;
      assert (a + b)[..|a + b| - 1] == a + b[..n];
      assert (a + b)[|a + b| - 1] == b[n];
      ApplyMapSplit(c, attrs, a, b[..n]);
    }
  }

  /** A field that already holds a non-blank value is never overwritten. */
  lemma {:induction false} ApplyMapKeepsFilled(c: Record, attrs: Pairs<seq<string>>, m: Pairs<string>, field: string)
    requires field in c && !Blank(c[field])
    ensures var r := ApplyMap(c, attrs, m); field in r && r[field] == c[field]
  {
    if m != [] {
      ApplyMapKeepsFilled(c, attrs, m[..|m| - 1], field);
    }
  }

  /** The loop only adds keys, only the ones the map targets, and only with string values. */
  lemma {:induction false} ApplyMapWrites(c: Record, attrs: Pairs<seq<string>>, m: Pairs<string>, field: string)
    ensures var r := ApplyMap(c, attrs, m);
      && (field in c ==> field in r)
      && (field in r && (field !in c || r[field] != c[field]) ==>
            r[field].Str? && exists i :: 0 <= i < |m| && m[i].1 == field && Get(attrs, m[i].0).Some?)
  {
    if m != [] {
      var n := |m| - 1;
      ApplyMapWrites(c, attrs, m[..n], field);
      var prev := ApplyMap(c, attrs, m[..n]);
      var r := ApplyMap(c, attrs, m);
      if field in r && (field !in c || r[field] != c[field]) {
        if field in prev && (field !in c || prev[field] != c[field]) && r[field] == prev[field] {
          var i :| 0 <= i < n && m[..n][i].1 == field && Get(attrs, m[..n][i].0).Some?;
          assert m[i] == m[..n][i];
        }
      }
    }
  }

  /**
   * First match wins: the field receives the value of the first map entry that
   * targets it with a present attribute giving a non-empty value, provided no
   * earlier entry gives it a non-empty one and it starts open.
   */
  lemma {:induction false} ApplyMapFirstMatch(c: Record, attrs: Pairs<seq<string>>, m: Pairs<string>, field: string, i: nat)
    requires Open(c, field)
    requires i < |m| && m[i].1 == field && Get(attrs, m[i].0).Some? && Provided(attrs, m[i].0) != ""
    requires forall j :: 0 <= j < i && m[j].1 == field ==> Provided(attrs, m[j].0) == ""
    ensures var r := ApplyMap(c, attrs, m); field in r && r[field] == Str(Provided(attrs, m[i].0))
  {
    StaysOpen(c, attrs, m[..i], field);
    var before := ApplyMap(c, attrs, m[..i]);
    var after := MapStep(before, attrs, m[i].0, m[i].1);
    assert m[..i + 1][..i] == m[..i];
    assert ApplyMap(c, attrs, m[..i + 1]) == after;
    assert m[..i + 1] + m[i + 1..] == m;
    ApplyMapSplit(c, attrs, m[..i + 1], m[i + 1..]);
    ApplyMapKeepsFilled(after, attrs, m[i + 1..], field);
  }

  /** Entries that give a field only empty values leave it open. */
  lemma {:induction false} StaysOpen(c: Record, attrs: Pairs<seq<string>>, m: Pairs<string>, field: string)
    requires Open(c, field)
    requires forall j :: 0 <= j < |m| && m[j].1 == field ==> Provided(attrs, m[j].0) == ""
    ensures Open(ApplyMap(c, attrs, m), field)
  {
    if m != [] {
      var n := |m| - 1;
      assert forall j :: 0 <= j < n ==> m[..n][j] == m[j];
      StaysOpen(c, attrs, m[..n], field);
    }
  }

  // ---------------------------------------------------------------------
  // Properties of the single record
  // ---------------------------------------------------------------------

  /** The presets of `Seed` that hold a non-blank value survive the mapping loop. */
  lemma SeedKept(id: string, user: User, attrs: Pairs<seq<string>>, m: Pairs<string>)
    ensures var c := ApplyMap(Seed(id, user), attrs, m);
      && "IdUser" in c && c["IdUser"] == Num(user.id)
      && "UseFriendlyName" in c && c["UseFriendlyName"] == Flag(true)
      && "Storage" in c && c["Storage"] == Str(TeamStorage)
      && "ReadOnly" in c && c["ReadOnly"] == Flag(true)
      && "Global" in c && c["Global"] == Flag(true)
      && "PrimaryEmail" in c && c["PrimaryEmail"] == Num(PrimaryEmailBusiness)
      && (id != "" ==> "UUID" in c && "IdContact" in c && "IdContactStr" in c && c["UUID"] == c["IdContact"] == c["IdContactStr"] == Str(id))
  {
    var s := Seed(id, user);
    ApplyMapKeepsFilled(s, attrs, m, "IdUser");
    ApplyMapKeepsFilled(s, attrs, m, "UseFriendlyName");
    ApplyMapKeepsFilled(s, attrs, m, "Storage");
    ApplyMapKeepsFilled(s, attrs, m, "ReadOnly");
    ApplyMapKeepsFilled(s, attrs, m, "Global");
    ApplyMapKeepsFilled(s, attrs, m, "PrimaryEmail");
    if id != "" {
      ApplyMapKeepsFilled(s, attrs, m, "UUID");
      ApplyMapKeepsFilled(s, attrs, m, "IdContact");
      ApplyMapKeepsFilled(s, attrs, m, "IdContactStr");
    }
  }

  /** The preset fields survive the mapping whenever they are non-empty. */
  lemma PopulatePresets(contactMap: Pairs<string>, fields: Fields, user: User, item: RawItem)
    requires PopulateContact(contactMap, fields, user, item).Some?
    ensures var c := PopulateContact(contactMap, fields, user, item).value;
      && item.Entry? && First(item.attributes, fields.uid).Some?
      && var id := First(item.attributes, fields.uid).value;
      && "IdUser" in c && c["IdUser"] == Num(user.id)
      && "UseFriendlyName" in c && c["UseFriendlyName"] == Flag(true)
      && "Storage" in c && c["Storage"] == Str(TeamStorage)
      && "ReadOnly" in c && c["ReadOnly"] == Flag(true)
      && "Global" in c && c["Global"] == Flag(true)
      && "PrimaryEmail" in c && c["PrimaryEmail"] == Num(PrimaryEmailBusiness)
      && (id != "" ==> "UUID" in c && "IdContact" in c && "IdContactStr" in c && c["UUID"] == c["IdContact"] == c["IdContactStr"] == Str(id))
  {
    var raw := item.attributes;
    var attrs := ChangeKeyCase(raw);
    FirstValueLowered(raw, fields.uid);
    var id := First(raw, fields.uid).value;
    var m := ChangeKeyCase(contactMap);
    var c0 := ApplyMap(Seed(id, user), attrs, m);
    var e := ViewEmail(c0);
    assert PopulateContact(contactMap, fields, user, item) == Some(c0["ViewEmail" := e]["ItsMe" := Flag(e == Str(user.publicId))]);
    SeedKept(id, user, attrs, m);
  }

  /**
   * BusinessEmail takes precedence over PersonalEmail for the display e-mail,
   * and `ItsMe` holds iff the display e-mail is the user's public id.
   */
  lemma PopulateViewEmail(contactMap: Pairs<string>, fields: Fields, user: User, item: RawItem)
    requires PopulateContact(contactMap, fields, user, item).Some?
    ensures var c := PopulateContact(contactMap, fields, user, item).value;
      var business := "BusinessEmail" in c && c["BusinessEmail"] != Str("");
      var personal := "PersonalEmail" in c && c["PersonalEmail"] != Str("");
      && "ViewEmail" in c && "ItsMe" in c
      && (business ==> c["ViewEmail"] == c["BusinessEmail"])
      && (!business && personal ==> c["ViewEmail"] == c["PersonalEmail"])
      && (!business && !personal ==> c["ViewEmail"] == Str("") && (c["ItsMe"] == Flag(true) <==> user.publicId == ""))
      && (c["ItsMe"] == Flag(true) <==> c["ViewEmail"] == Str(user.publicId))
      && (c["ItsMe"] == Flag(false) <==> c["ViewEmail"] != Str(user.publicId))
  {
  }

  /**
   * The two-entry map [(A, X), (B, X)] of the default settings' shape: when
   * attribute A gives a non-empty first value, X holds it, whatever B holds.
   */
  lemma PopulateFirstMatchWins(a: string, b: string, field: string, fields: Fields, user: User, item: RawItem, v: string)
    requires Lower(a) != Lower(b)
    requires field !in {"UUID", "IdUser", "UseFriendlyName", "Storage", "ReadOnly", "Global",
                        "IdContact", "IdContactStr", "PrimaryEmail", "ViewEmail", "ItsMe"}
    requires item.Entry? && First(item.attributes, fields.uid).Some?
    requires First(item.attributes, Lower(a)) == Some(v) && v != ""
    ensures var c := PopulateContact([(a, field), (b, field)], fields, user, item).value;
      field in c && c[field] == Str(v)
  {
    var raw := item.attributes;
    var attrs := ChangeKeyCase(raw);
    var contactMap := [(a, field), (b, field)];
    ChangeKeyCaseNoCollision(contactMap);
    var m := ChangeKeyCase(contactMap);
    FirstValueLowered(raw, fields.uid);
    FirstValueLowered(raw, Lower(a));
    var id := First(raw, fields.uid).value;
    ApplyMapFirstMatch(Seed(id, user), attrs, m, field, 0);
  }
}
