/**
 * The directory client the contact source talks to (`\Aurora\System\Utils\Ldap`).
 * Its code is not part of this model: what it does is given as data, so that
 * `Connect`, `Escape`, `Search`, `ResultCount`, `ResultItem` and `SortPaginate`
 * behave as arbitrary, fixed functions of their arguments.
 */
module Directory {
  import opened Php

  /**
   * One entry as the client hands it over: an array from attribute name
   * (any letter case) to the attribute's values, or something that is not an array.
   */
  datatype RawItem = Entry(attributes: Pairs<seq<string>>) | NotAnEntry

  /** The arguments of `SortPaginate`. */
  datatype PageQuery = PageQuery(sortAttribute: string, ascending: bool, offset: Option<int>, limit: Option<int>)

  /**
   * What a `Search` leaves behind: failure, or the state `ResultCount`,
   * `ResultItem` and `SortPaginate` then read. `SortPaginate` answers `None`
   * where the client returns something other than an array.
   */
  datatype SearchOutcome =
    | Failed
    | Matched(count: int, item: RawItem, sortPaginate: PageQuery -> Option<seq<RawItem>>)

  datatype Credentials = Credentials(host: string, port: int, bindDn: string, bindPassword: string)

  /** A directory server: whom it lets bind, how its client escapes, what a search finds. */
  datatype Server = Server(
    accepts: Credentials -> bool,
    escape: string -> string,
    search: (string, string) -> SearchOutcome)

  /** A bound client, created for a search base. */
  datatype Connection = Connection(server: Server, searchDn: string)

  /** `(new Ldap($searchDn))->Connect(...)`: the client if the bind succeeds. */
  function Connect(server: Server, searchDn: string, credentials: Credentials): (c: Option<Connection>)
    ensures c.Some? <==> server.accepts(credentials)
    ensures c.Some? ==> c.value.searchDn == searchDn && c.value.server == server
  {
    if server.accepts(credentials) then Some(Connection(server, searchDn)) else None
  }

  function Escape(c: Connection, s: string): string {
    c.server.escape(s)
  }

  function Search(c: Connection, filter: string): SearchOutcome {
    c.server.search(c.searchDn, filter)
  }
}
