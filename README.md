# Team contacts from an LDAP directory — a Dafny model

This project models the Aurora module `TeamContactsLdap`. The module exposes an LDAP
directory as the read-only "team" contact storage of the Contacts module. The model covers
five parts:

- **Filters** (`filters.dfy`). These are the search filters the module sends to the directory:
  the object-class base filter built at init, the free-text clause over the name and e-mail
  attributes, the combined filter used to count and list contacts, and the filter used to look
  one contact up by id. Each is a string function written the way the source concatenates
  it. Each is also built as a filter tree (the RFC 4515 shapes `&`, `|`, `=`, `=*…*`), and a
  lemma proves that rendering the tree gives the source's string. `Matches` defines which
  entries a tree selects. With it the model proves that a search only narrows the base filter,
  and that skipping empty e-mails keeps only entries with an "@" in their e-mail.
- **List mapping** (`contacts.dfy`, `ListEntry`, `ListEntries`, `MapListEntries`). This is the
  `foreach` of `getContactItems`. It lower-cases the keys of each entry, drops entries without a
  uid value, and appends fixed-shape records in the order of the page.
- **Single-record mapping** (`contacts.dfy`, `PopulateContact`, `PopulateResultContact`). The
  record starts from fixed presets. The contact map is then folded into it under the rule "write
  only a field that is unset or empty", so the first match wins. Last, the display e-mail is
  picked, BusinessEmail before PersonalEmail, and `ItsMe` is set.
- **The module object** (`module.dfy`, class `Module`). Its constructor is `init`. It keeps the
  memoised connector of `getLdapConnector`, and it has the event handlers `onGetStorages`,
  `onAfterGetContacts` and `onAfterGetContact`. Each handler degrades to 0, an empty list or no
  contact when the connection or the search fails.
- **PHP built-ins** (`php.dfy`). `strtolower` is modelled as ASCII-only. `array_change_key_case`
  is modelled on an ordered array: when two keys collide, the later value overwrites the earlier
  one in place. PHP's `empty()` is modelled on strings.

The directory client `\Aurora\System\Utils\Ldap` is not part of this model. Its behaviour is
given as data (`Directory.Server`): which credentials bind, how `Escape` rewrites text, and what
each search returns, that is failure or a count, a first item and a `SortPaginate` answer.
Nothing is assumed about these functions beyond their being fixed.

Behaviour of the code worth noting:

- An entry whose uid attribute has the empty string as its first value is kept. `isset` holds of
  "". So a list record's id may be empty.
- `Connect` receives host, port, bind DN and password only. There is no backup host.
- `ItsMe` compares with the user's `PublicId`.
- The connector memo is a `static` variable in the source, so all instances share it. Here it is
  a field of the module object, which is the same when there is one module instance.

## Model

| member | source | states |
|---|---|---|
| `Filters.BaseFilter` | Module.php:242-245 | the base filter built at init is a parenthesised filter; `BaseFilterRenders` ties it to its tree |
| `Filters.SearchRequest` | Module.php:87-92 | the free-text clause is empty iff both the name and the e-mail attribute names are empty; when it is not empty it is a parenthesised disjunction starting with "(\|" |
| `Filters.SearchFilter` | Module.php:106-139 | the filter equals the base filter iff the search string is empty, and it is parenthesised whenever the base filter is |
| `Filters.LookupFilter` | Module.php:288 | the lookup filter is a parenthesised conjunction "(&" whose first operand is the base filter |
| `Filters.BaseFilterRenders` | Module.php:242-245 | the base filter string is the rendering of `(objectClass=C)`, or of its conjunction with `(email=*@*)` when SkipEmptyEmail holds and an e-mail attribute is configured |
| `Filters.BaseFilterConjunction` | Module.php:242-245 | the base filter starts with "(&" exactly when SkipEmptyEmail holds and the e-mail attribute name is non-empty; otherwise it is exactly "(objectClass=" + class + ")" |
| `Filters.SearchRequestRenders` | Module.php:87-92 | the free-text clause is empty when no attribute is configured, and otherwise it is the rendered disjunction of one `(field=*escaped*)` clause per configured attribute, name first |
| `Filters.SearchRequestSingle` | Module.php:89-91 | with only one attribute configured, the clause is still wrapped in "(\|…)" around that one clause |
| `Filters.SearchFilterRenders` | Module.php:106-109 | the count and list filter is the rendering of the base tree when the search is empty, and otherwise of the conjunction of the free-text disjunction (if any) and the base tree |
| `Filters.SearchFilterShape` | Module.php:136-139 | an empty search string leaves the base filter unchanged; any other search gives "(&" + … + base + ")" |
| `Filters.LookupFilterRenders` | Module.php:288 | the lookup filter is the rendered conjunction of the base tree and `(uid=escaped id)` |
| `Filters.SearchNarrows` | Module.php:106-109 | every entry the search filter selects is also selected by the base filter |
| `Filters.SearchTreeMatches` | Module.php:87-92 | with a non-empty search, an entry is selected iff the base filter selects it and, when an attribute is configured, the name or the e-mail attribute contains the escaped text |
| `Filters.SkipEmptyEmailSelects` | Module.php:243-244 | with SkipEmptyEmail and an e-mail attribute configured, the base filter selects exactly the object-class entries that have an e-mail value containing "@" |
| `Filters.LookupTreeMatches` | Module.php:288 | the lookup selects exactly the base-filter entries whose uid attribute holds the escaped id |
| `Php.Lower` | Module.php:236-239 | `strtolower` keeps the length and maps each character to its ASCII lower case, A-Z to a-z and every other character to itself |
| `Php.ChangeKeyCase` | Module.php:152-193 | `array_change_key_case` never makes the array longer, and it is empty iff the array was empty; `ChangeKeyCaseGet`, `ChangeKeyCaseKeys` and `ChangeKeyCaseNoCollision` give its contents |
| `Php.ChangeKeyCaseGet` | Module.php:152 | a lookup in the lower-cased array is a case-insensitive lookup in the original, where the last colliding key wins |
| `Php.ChangeKeyCaseKeys` | Module.php:192-193 | the lower-cased array has distinct keys, all of them lower-case |
| `Php.ChangeKeyCaseNoCollision` | Module.php:192 | without colliding keys, lower-casing keeps the contact map's order and its values |
| `Php.LowerIsLower` | Module.php:236-239 | the configured names, once lower-cased, contain no upper-case letter, and lower-casing is idempotent |
| `Contacts.ListEntry` | Module.php:151-168 | an entry is dropped iff it is not an array or its uid has no first value; a kept record has UUID equal to the uid's first value, FullName equal to the name's first value or "", ViewEmail equal to the e-mail's first value unless that is PHP-empty, the fixed defaults, and `ItsMe` iff ViewEmail equals PublicId |
| `Contacts.ListEmail` | Module.php:154 | a first value that is neither "" nor "0" (PHP `empty()`) is the list e-mail as is; otherwise the list e-mail is "" |
| `Contacts.ListEntries` | Module.php:150-170 | the list built from a page is never longer than the page; `ListEntriesCount`, `ListEntriesMembers` and `ListEntriesAppend` give its length, contents and order |
| `Contacts.ListEntriesAppend` | Module.php:150-170 | the list of a concatenation of pages is the concatenation of their lists, so the relative order of the entries is preserved |
| `Contacts.ListEntriesCount` | Module.php:150-170 | N raw entries of which K are dropped give exactly N − K records |
| `Contacts.ListEntriesLength` | Module.php:150-170 | the list is never longer than the page, and it is exactly as long iff no entry is dropped |
| `Contacts.ListEntriesMembers` | Module.php:153-167 | a record is in the list iff some entry of the page maps to it |
| `Contacts.ListEntriesDefaults` | Module.php:155-167 | every list record has IdUser 0, empty first and last names, storage "team", Frequency 0, DateModified 0, an empty ETag, and `ItsMe` iff ViewEmail equals PublicId |
| `Contacts.MapListEntries` | Module.php:150-170 | the loop appends, in order, the record of every array entry that has a uid value, and ends with exactly the list `ListEntries` |
| `Contacts.PopulateContact` | Module.php:187-197 | the lookup yields no contact iff the item is not an array or its uid (looked up case-insensitively) has no first value |
| `Contacts.PopulateResultContact` | Module.php:183-232 | the loop over the lower-cased contact map, followed by the e-mail choice, ends with exactly the record `PopulateContact` |
| `Contacts.ApplyMap` | Module.php:211-215 | the mapping loop keeps every field the record had and adds only fields the contact map targets |
| `Contacts.ViewEmail` | Module.php:217-225 | a set, non-empty BusinessEmail is the display e-mail; a non-empty display e-mail is the BusinessEmail or the PersonalEmail |
| `Contacts.ApplyMapKeepsFilled` | Module.php:211-215 | a field that holds a non-empty value is never overwritten by the map loop |
| `Contacts.ApplyMapWrites` | Module.php:211-215 | the map loop removes no key, and any value it changes is a string written for a map entry that targets that field with a present attribute |
| `Contacts.ApplyMapFirstMatch` | Module.php:211-215 | a field that starts unset or empty receives the value of the first map entry that targets it with a present attribute giving a non-empty value |
| `Contacts.StaysOpen` | Module.php:212-213 | map entries that give a field only empty values leave it unset or empty |
| `Contacts.ApplyMapSplit` | Module.php:211 | running the map loop over two parts of the map in turn is running it over the whole map |
| `Contacts.PopulatePresets` | Module.php:199-215 | in the contact, IdUser is the user's Id, UseFriendlyName, ReadOnly and Global are true, Storage is "team", PrimaryEmail is Business, and UUID, IdContact and IdContactStr are the uid whenever it is non-empty |
| `Contacts.PopulateViewEmail` | Module.php:217-225 | ViewEmail is BusinessEmail when it is set and non-empty, else PersonalEmail when it is set and non-empty, else ""; `ItsMe` holds iff ViewEmail equals PublicId, so with neither e-mail it holds only for an empty PublicId |
| `Contacts.PopulateFirstMatchWins` | Module.php:211-215 | for the map [(A, X), (B, X)], an entry whose attribute A has a non-empty first value puts that value in X, whatever B holds |
| `TeamContactsLdap.ContactItemsCount` | Module.php:101-115 | without a connector the count is 0, and a non-zero count comes only from a search that matched |
| `TeamContactsLdap.ContactItems` | Module.php:129-176 | without a connector the list is empty, a non-empty list comes only from a search that matched, and every record has the fixed list fields |
| `TeamContactsLdap.GetContact` | Module.php:280-292 | a contact is found only when there is a connector, the lookup search matched, and its item is an array with a uid value |
| `TeamContactsLdap.Merge` | Module.php:258-278 | for all storages the old list is a prefix of the new one; for team or all the new list ends with this storage's list |
| `TeamContactsLdap.SortQuery` | Module.php:142-147 | SortPaginate sorts by the e-mail attribute iff the sort field is Email and by the name attribute otherwise; it sorts ascending iff the sort order is ASC; offset and limit pass through |
| `TeamContactsLdap.OnGetStorages` | Module.php:253-256 | key 20 of the storages array becomes "team" and every other key keeps its value |
| `TeamContactsLdap.Degrades` | Module.php:101-115 | with no connection, or when the search fails, the count is 0 and the list is empty; with no connection, or when the lookup search fails, the lookup yields no contact |
| `TeamContactsLdap.ContactItemsFromPage` | Module.php:141-171 | when the page comes back, the list has one record per entry with a uid, exactly the records those entries map to, each with the fixed list fields |
| `TeamContactsLdap.MergeTeamResets` | Module.php:261-276 | for the team storage the accumulator becomes this storage's count and list, whatever it held before |
| `TeamContactsLdap.MergeAllAppends` | Module.php:272-276 | for all storages the count is the old count plus this storage's, and the list is the old list, unchanged and in order, followed by this storage's list |
| `TeamContactsLdap.MergeAllTwice` | Module.php:272-276 | two merges for all storages in a row add both counts and append both lists in order |
| `TeamContactsLdap.MergeOtherUntouched` | Module.php:260 | any storage other than team or all leaves the accumulator untouched |
| `TeamContactsLdap.Module.constructor` | Module.php:234-245 | the class and the attribute names are lower-cased, and the base filter is the rendered base tree of those names |
| `TeamContactsLdap.Module.GetLdapConnector` | Module.php:63-77 | `Connect` is attempted on the first call only, exactly once, and its outcome is cached; every later call returns the memoised connector, or the memoised failure, without connecting again |
| `TeamContactsLdap.Module.GetContactItemsCount` | Module.php:101-115 | the first call caches the outcome of `Connect` and later calls keep it; the count is 0 without a connector or when the search fails, and otherwise it is the search's result count |
| `TeamContactsLdap.Module.GetContactItems` | Module.php:129-176 | the first call caches the outcome of `Connect` and later calls keep it; the list is empty without a connector, when the search fails or when the page is not an array, and otherwise it is the mapped page |
| `TeamContactsLdap.Module.OnAfterGetContacts` | Module.php:258-278 | other storages leave the result and the connector untouched; for team or all a first call caches the outcome of `Connect`, and the result becomes the merge of this storage's count and list, with ASC as the default sort order |
| `TeamContactsLdap.Module.OnAfterGetContact` | Module.php:280-292 | a truthy result is left alone and a cached connector always stays; otherwise a first call caches the outcome of `Connect`, and the result is the contact found by the lookup filter, or none when there is no connector or the search fails |

## Left out

- The directory client (`\Aurora\System\Utils\Ldap`): the LDAP protocol, connect and bind,
  `Escape`, and the server's matching rules. These are fixed but unknown functions. The model
  does not claim that `Escape` neutralises filter metacharacters, nor that the filters are valid
  under RFC 4515.
- `prepareFiltersFromStorage` (Module.php:294-310). It only composes a query-builder closure for
  the host's database layer, which is outside this model.
- Event subscription (Module.php:247-250), `getAuthenticatedUser` (Module.php:271, 287) and
  `Contact::populate` (Module.php:227). These are host framework calls. The user is a parameter,
  and the lookup returns the array that would be handed to `populate`.
- The values of the host's enumerations. `StorageType::Team` and `StorageType::All` are "team" and
  "all". `SortField::Email` is 2, `SortOrder::ASC` is 0 and `PrimaryEmail::Business` is 1. Only
  the comparisons with these constants matter to the model.
- PHP's dynamic typing. Attribute values are lists of strings, and the first value is `[0]`.
  Integer array keys, values that are not lists, `null` values and the `count` entries of raw
  LDAP results are not modelled. `$mResult` of `onAfterGetContact` is an `Option`, where `None`
  stands for every falsy value.
- Integer overflow of `ContactCount` (PHP integers become floats) is not modelled.
- `Filters.Matches`: it compares values as plain text and ignores escaping. It is a reference
  semantics for the filter shapes, not the server's behaviour.
