/**
 * The module itself (Module.php): configuration read at init, the memoised
 * directory connection, and the handlers the Contacts module calls for
 * enumerating storages, listing contacts and fetching one contact.
 */
module TeamContactsLdap {
  import opened Php
  import opened Directory
  import opened Filters
  import opened Contacts

  /** `StorageType::All` of the Contacts module. */
  const AllStorage := "all"
  /** `self::$iStorageOrder`: the key this storage takes in the storages array. */
  const StorageOrder := 20
  /** `Contacts\Enums\SortField::Email`. */
  const SortFieldEmail := 2
  /** `\Aurora\System\Enums\SortOrder::ASC`. */
  const SortOrderAsc := 0

  /** The module settings this source reads (Settings.php). */
  datatype Settings = Settings(
    host: string,
    port: int,
    searchDn: string,
    bindDn: string,
    bindPassword: string,
    contactObjectClass: string,
    uidFieldName: string,
    emailFieldName: string,
    nameFieldName: string,
    skipEmptyEmail: bool,
    contactMap: Pairs<string>)

  /** The `static $oLdap` slot: never tried, or the outcome of the one attempt. */
  datatype Memo = Unset | Cached(connector: Option<Connection>)

  /** The `$mResult` array the storages of a contact search add to. */
  datatype ContactsResult = ContactsResult(contactCount: int, list: seq<ListContact>)

  /** The `$aArgs` of `Contacts::GetContacts::after`; `None` where the key is not set. */
  datatype GetContactsArgs = GetContactsArgs(
    storage: string,
    search: string,
    sortField: int,
    sortOrder: Option<int>,
    offset: Option<int>,
    limit: Option<int>)

  // =====================================================================
  // The operations, given the connector
  // =====================================================================

  /** `getContactItemsCount` once the connector is known. */
  function ContactItemsCount(conn: Option<Connection>, base: string, fields: Fields, search: string): (n: int)
    ensures conn.None? ==> n == 0
    ensures n != 0 ==> conn.Some? && Search(conn.value, SearchFilter(base, fields.name, fields.email, conn.value.server.escape, search)).Matched?
  {
    match conn
    case None => 0
    case Some(c) =>
      match Search(c, SearchFilter(base, fields.name, fields.email, c.server.escape, search))
      case Failed => 0
      case Matched(count, _, _) => count
  }

  /** The arguments `getContactItems` hands to `SortPaginate`. */
  function SortQuery(fields: Fields, sortField: int, sortOrder: int, offset: Option<int>, limit: Option<int>): (q: PageQuery)
    ensures q.sortAttribute == fields.email <== sortField == SortFieldEmail
    ensures q.sortAttribute == fields.name <== sortField != SortFieldEmail
    ensures q.ascending <==> sortOrder == SortOrderAsc
    ensures q.offset == offset && q.limit == limit
  {
    PageQuery(if SortFieldEmail == sortField then fields.email else fields.name, SortOrderAsc == sortOrder, offset, limit)
  }

  /** `getContactItems` once the connector is known. */
  function ContactItems(conn: Option<Connection>, base: string, fields: Fields, user: User,
                        sortField: int, sortOrder: int, offset: Option<int>, limit: Option<int>, search: string): (r: seq<ListContact>)
    ensures conn.None? ==> r == []
    ensures r != [] ==> conn.Some? && Search(conn.value, SearchFilter(base, fields.name, fields.email, conn.value.server.escape, search)).Matched?
    ensures forall x :: x in r ==> ListDefaults(x, user)
  {
    match conn
    case None => []
    case Some(c) =>
      match Search(c, SearchFilter(base, fields.name, fields.email, c.server.escape, search))
      case Failed => []
      case Matched(_, _, sortPaginate) =>
        match sortPaginate(SortQuery(fields, sortField, sortOrder, offset, limit))
        case None => []
        case Some(items) =>
          ListEntriesDefaults(fields, user, items);
          ListEntries(fields, user, items)
  }

  /** `onAfterGetContact` on a falsy result, once the connector is known. */
  function GetContact(conn: Option<Connection>, base: string, fields: Fields, contactMap: Pairs<string>,
                      user: User, uuid: string): (r: Option<Record>)
    ensures r.Some? ==>
      && conn.Some?
      && var outcome := Search(conn.value, LookupFilter(base, fields.uid, Escape(conn.value, uuid)));
      && outcome.Matched? && outcome.item.Entry? && First(outcome.item.attributes, fields.uid).Some?
  {
    match conn
    case None => None
    case Some(c) =>
      match Search(c, LookupFilter(base, fields.uid, Escape(c, uuid)))
      case Failed => None
      case Matched(_, item, _) => PopulateContact(contactMap, fields, user, item)
  }

  /** `onAfterGetContacts` once this storage's count and list are known. */
  function Merge(storage: string, acc: ContactsResult, count: int, items: seq<ListContact>): (r: ContactsResult)
    ensures storage == AllStorage ==> acc.list <= r.list
    ensures storage == TeamStorage || storage == AllStorage ==>
      |items| <= |r.list| && r.list[|r.list| - |items|..] == items
  {
    if storage == TeamStorage then ContactsResult(0 + count, [] + items)
    else if storage == AllStorage then ContactsResult(acc.contactCount + count, acc.list + items)
    else acc
  }

  /** `onGetStorages`: this storage registers under key 20 and no other key changes. */
  function OnGetStorages(storages: map<int, string>): (r: map<int, string>)
    ensures r.Keys == storages.Keys + {StorageOrder}
    ensures r[StorageOrder] == TeamStorage
    ensures forall k :: k in storages && k != StorageOrder ==> r[k] == storages[k]
  {
    storages[StorageOrder := TeamStorage]
  }

  // =====================================================================
  // The module object
  // =====================================================================

  class Module {
    const settings: Settings
    const server: Server
    const contactObjectClass: string
    const uidFieldName: string
    const emailFieldName: string
    const nameFieldName: string
    const skipEmptyEmail: bool
    const contactObjectClassForSearch: string

    /** The memoised connector of `getLdapConnector`. */
    var ldap: Memo
    /** How many times `Connect` has been called. */
    ghost var connectAttempts: nat

    ghost predicate Valid()
      reads this
    {
      connectAttempts == if ldap.Unset? then 0 else 1
    }

    function FieldNames(): Fields {
      Fields(uidFieldName, emailFieldName, nameFieldName)
    }

    /** The outcome of the one `Connect` call `getLdapConnector` makes, from the settings. */
    function Connected(): Option<Connection> {
      Connect(server, settings.searchDn, Credentials(settings.host, settings.port, settings.bindDn, settings.bindPassword))
    }

    /** `init`: the names are lower-cased and the base filter is built once. */
    constructor (settings: Settings, server: Server)
      ensures Valid() && ldap == Unset
      ensures this.settings == settings && this.server == server
      ensures contactObjectClass == Lower(settings.contactObjectClass)
      ensures uidFieldName == Lower(settings.uidFieldName)
      ensures emailFieldName == Lower(settings.emailFieldName)
      ensures nameFieldName == Lower(settings.nameFieldName)
      ensures skipEmptyEmail == settings.skipEmptyEmail
      ensures contactObjectClassForSearch == Render(BaseTree(contactObjectClass, emailFieldName, skipEmptyEmail))
    {
      this.settings := settings;
      this.server := server;
      contactObjectClass := Lower(settings.contactObjectClass);
      uidFieldName := Lower(settings.uidFieldName);
      emailFieldName := Lower(settings.emailFieldName);
      nameFieldName := Lower(settings.nameFieldName);
      skipEmptyEmail := settings.skipEmptyEmail;
      contactObjectClassForSearch := BaseFilter(Lower(settings.contactObjectClass), Lower(settings.emailFieldName), settings.skipEmptyEmail);
      ldap := Unset;
      connectAttempts := 0;
      BaseFilterRenders(Lower(settings.contactObjectClass), Lower(settings.emailFieldName), settings.skipEmptyEmail);
    }

    /** `getLdapConnector`: connects on the first call only; every call returns the memoised outcome. */
    method GetLdapConnector() returns (c: Option<Connection>)
      requires Valid()
      modifies this`ldap, this`connectAttempts
      ensures Valid() && ldap == Cached(c)
      ensures old(ldap).Cached? ==> c == old(ldap).connector && connectAttempts == old(connectAttempts)
      ensures old(ldap).Unset? ==> c == Connected() && connectAttempts == 1
    {
      if ldap.Unset? {
        var connector := Connect(server, settings.searchDn,
                                 Credentials(settings.host, settings.port, settings.bindDn, settings.bindPassword));
        connectAttempts := connectAttempts + 1;
        ldap := Cached(connector);
      }
      c := ldap.connector;
    }

    /** `getContactItemsCount`. */
    method GetContactItemsCount(search: string) returns (n: int)
      requires Valid()
      modifies this`ldap, this`connectAttempts
      ensures Valid() && ldap.Cached? && (old(ldap).Cached? ==> ldap == old(ldap))
      ensures old(ldap).Unset? ==> ldap == Cached(Connected())
      ensures n == ContactItemsCount(ldap.connector, contactObjectClassForSearch, FieldNames(), search)
      ensures ldap.connector.None? ==> n == 0
    {
      var conn := GetLdapConnector();
      n := 0;
      if conn.Some? {
        var filter := contactObjectClassForSearch;
        if 0 < |search| {
          filter := "(&" + SearchRequest(nameFieldName, emailFieldName, conn.value.server.escape, search) + filter + ")";
        }
        var outcome := Search(conn.value, filter);
        if outcome.Matched? {
          n := outcome.count;
        }
      }
    }

    /** `getContactItems`. */
    method GetContactItems(user: User, sortField: int, sortOrder: int, offset: Option<int>, limit: Option<int>, search: string)
      returns (contacts: seq<ListContact>)
      requires Valid()
      modifies this`ldap, this`connectAttempts
      ensures Valid() && ldap.Cached? && (old(ldap).Cached? ==> ldap == old(ldap))
      ensures old(ldap).Unset? ==> ldap == Cached(Connected())
      ensures contacts == ContactItems(ldap.connector, contactObjectClassForSearch, FieldNames(), user,
                                       sortField, sortOrder, offset, limit, search)
      ensures ldap.connector.None? ==> contacts == []
    {
      var conn := GetLdapConnector();
      contacts := [];
      if conn.Some? {
        var filter := contactObjectClassForSearch;
        if 0 < |search| {
          filter := "(&" + SearchRequest(nameFieldName, emailFieldName, conn.value.server.escape, search) + filter + ")";
        }
        var outcome := Search(conn.value, filter);
        if outcome.Matched? {
          var page := outcome.sortPaginate(
            PageQuery(if SortFieldEmail == sortField then emailFieldName else nameFieldName,
                      SortOrderAsc == sortOrder, offset, limit));
          if page.Some? && 0 < |page.value| {
            contacts := MapListEntries(FieldNames(), user, page.value);
          }
        }
      }
    }

    /** `onAfterGetContacts`: resets the result for this storage alone, adds to it for all storages. */
    method OnAfterGetContacts(args: GetContactsArgs, user: User, result: ContactsResult) returns (r: ContactsResult)
      requires Valid()
      modifies this`ldap, this`connectAttempts
      ensures Valid()
      ensures args.storage != TeamStorage && args.storage != AllStorage ==> r == result && ldap == old(ldap)
      ensures args.storage == TeamStorage || args.storage == AllStorage ==>
        && ldap.Cached? && (old(ldap).Cached? ==> ldap == old(ldap))
        && (old(ldap).Unset? ==> ldap == Cached(Connected()))
        && r == Merge(args.storage, result,
                      ContactItemsCount(ldap.connector, contactObjectClassForSearch, FieldNames(), args.search),
                      ContactItems(ldap.connector, contactObjectClassForSearch, FieldNames(), user, args.sortField,
                                   args.sortOrder.GetOr(SortOrderAsc), args.offset, args.limit, args.search))
    {
      r := result;
      if args.storage == TeamStorage || args.storage == AllStorage {
        if args.storage == TeamStorage {
          r := ContactsResult(0, []);
        }
        var sortOrder := args.sortOrder.GetOr(SortOrderAsc);
        var count := GetContactItemsCount(args.search);
        r := r.(contactCount := r.contactCount + count);
        var items := GetContactItems(user, args.sortField, sortOrder, args.offset, args.limit, args.search);
        r := r.(list := r.list + items);
      }
    }

    /** `onAfterGetContact`: only a falsy result is looked up, and it stays falsy unless the directory finds the contact. */
    method OnAfterGetContact(uuid: string, user: User, result: Option<Record>) returns (r: Option<Record>)
      requires Valid()
      modifies this`ldap, this`connectAttempts
      ensures Valid()
      ensures result.Some? ==> r == result && ldap == old(ldap)
      ensures old(ldap).Cached? ==> ldap == old(ldap)
      ensures result.None? ==>
        && ldap.Cached?
        && (old(ldap).Unset? ==> ldap == Cached(Connected()))
        && r == GetContact(ldap.connector, contactObjectClassForSearch, FieldNames(), settings.contactMap, user, uuid)
    {
      r := result;
      if result.None? {
        var conn := GetLdapConnector();
        r := None;
        if conn.Some? {
          var outcome := Search(conn.value, LookupFilter(contactObjectClassForSearch, uidFieldName, Escape(conn.value, uuid)));
          if outcome.Matched? {
            r := PopulateResultContact(settings.contactMap, FieldNames(), user, outcome.item);
          }
        }
      }
    }
  }

  // =====================================================================
  // Properties
  // =====================================================================

  /** Without a connection, or when the search fails, every operation degrades to its empty answer. */
  lemma Degrades(conn: Option<Connection>, base: string, fields: Fields, contactMap: Pairs<string>, user: User,
                 sortField: int, sortOrder: int, offset: Option<int>, limit: Option<int>, search: string, uuid: string)
    requires conn.None? || Search(conn.value, SearchFilter(base, fields.name, fields.email, conn.value.server.escape, search)).Failed?
    ensures ContactItemsCount(conn, base, fields, search) == 0
    ensures ContactItems(conn, base, fields, user, sortField, sortOrder, offset, limit, search) == []
    ensures conn.None? ==> GetContact(conn, base, fields, contactMap, user, uuid).None?
    ensures conn.Some? && Search(conn.value, LookupFilter(base, fields.uid, Escape(conn.value, uuid))).Failed? ==>
      GetContact(conn, base, fields, contactMap, user, uuid).None?
  {
  }

  /** For this storage alone the previous result is discarded: only this storage's count and list remain. */
  lemma MergeTeamResets(acc: ContactsResult, count: int, items: seq<ListContact>)
    ensures Merge(TeamStorage, acc, count, items) == ContactsResult(count, items)
  {
  }

  /** For all storages the count adds up and the list keeps what other storages put first, in order. */
  lemma MergeAllAppends(acc: ContactsResult, count: int, items: seq<ListContact>)
    ensures var r := Merge(AllStorage, acc, count, items);
      && r.contactCount == acc.contactCount + count
      && |r.list| == |acc.list| + |items|
      && r.list[..|acc.list|] == acc.list
      && r.list[|acc.list|..] == items
  {
  }

  /** Merging for all storages twice in a row is one merge of both contributions. */
  lemma MergeAllTwice(acc: ContactsResult, count1: int, items1: seq<ListContact>, count2: int, items2: seq<ListContact>)
    ensures Merge(AllStorage, Merge(AllStorage, acc, count1, items1), count2, items2)
         == Merge(AllStorage, acc, count1 + count2, items1 + items2)
  {
    assert acc.list + items1 + items2 == acc.list + (items1 + items2);
  }

  /** Any other storage leaves the result untouched. */
  lemma MergeOtherUntouched(storage: string, acc: ContactsResult, count: int, items: seq<ListContact>)
    requires storage != TeamStorage && storage != AllStorage
    ensures Merge(storage, acc, count, items) == acc
  {
  }

  /**
   * The list a search returns: when the page comes back, exactly its entries
   * with a uid, in order, each with the fixed list fields.
   */
  lemma ContactItemsFromPage(c: Connection, base: string, fields: Fields, user: User,
                             sortField: int, sortOrder: int, offset: Option<int>, limit: Option<int>, search: string, items: seq<RawItem>)
    requires Search(c, SearchFilter(base, fields.name, fields.email, c.server.escape, search)).Matched?
    requires Search(c, SearchFilter(base, fields.name, fields.email, c.server.escape, search))
               .sortPaginate(SortQuery(fields, sortField, sortOrder, offset, limit)) == Some(items)
    ensures var r := ContactItems(Some(c), base, fields, user, sortField, sortOrder, offset, limit, search);
      && |r| + Dropped(fields, items) == |items|
      && (forall x :: x in r <==> exists i :: 0 <= i < |items| && ListEntry(fields, user, items[i]) == Some(x))
      && (forall x :: x in r ==> ListDefaults(x, user))
  {
    ListEntriesCount(fields, user, items);
    ListEntriesDefaults(fields, user, items);
    forall x ensures x in ListEntries(fields, user, items) <==> exists i :: 0 <= i < |items| && ListEntry(fields, user, items[i]) == Some(x) {
      ListEntriesMembers(fields, user, items, x);
    }
  }
}
