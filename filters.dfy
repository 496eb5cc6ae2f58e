/**
 * The search filters the contact source sends to the directory, in the string
 * representation of section 4 of RFC 4515. The source builds them by string
 * concatenation (`BaseFilter`, `SearchRequest`, `SearchFilter`, `LookupFilter`);
 * the model also builds the same filters as trees (`BaseTree`, `SearchTree`,
 * `LookupTree`) and proves that rendering the tree gives the source's string.
 * `Matches` then says which entries each tree selects.
 */
module Filters {
  import opened Php

  /** The filter shapes the source produces. `Substring(a, s)` is `(a=*s*)`. */
  datatype Filter =
    | And(operands: seq<Filter>)
    | Or(operands: seq<Filter>)
    | Equal(attribute: string, value: string)
    | Substring(attribute: string, any: string)

  function Render(f: Filter): string
    decreases f
  {
    match f
    case And(fs) => "(&" + RenderAll(fs) + ")"
    case Or(fs) => "(|" + RenderAll(fs) + ")"
    case Equal(a, v) => "(" + a + "=" + v + ")"
    case Substring(a, s) => "(" + a + "=*" + s + "*)"
  }

  function RenderAll(fs: seq<Filter>): string
    decreases fs
  {
    if fs == [] then "" else Render(fs[0]) + RenderAll(fs[1..])
  }

  lemma RenderOne(f: Filter)
    ensures RenderAll([f]) == Render(f)
  {
    assert [f][1..] == [];
    assert Render(f) + "" == Render(f);
  }

  lemma RenderPair(f: Filter, g: Filter)
    ensures RenderAll([f, g]) == Render(f) + Render(g)
  {
    assert [f, g][1..] == [g];
    RenderOne(g);
  }

  // ---------------------------------------------------------------------
  // The filters as the source writes them (Module.php)
  // ---------------------------------------------------------------------

  /** A filter string in parentheses, as every filter of section 4 of RFC 4515 is. */
  predicate Enclosed(s: string) {
    2 <= |s| && s[0] == '(' && s[|s| - 1] == ')'
  }

  /** `init`: the object-class filter, narrowed to entries with an e-mail when asked. */
  function BaseFilter(objectClass: string, emailField: string, skipEmptyEmail: bool): (r: string)
    ensures Enclosed(r)
  {
    var f := "(objectClass=" + objectClass + ")";
    if skipEmptyEmail && 0 < |emailField| then "(&" + f + "(" + emailField + "=*@*))" else f
  }

  /** `getSearchLdapRequest`: the free-text clause over the name and e-mail attributes. */
  function SearchRequest(nameField: string, emailField: string, escape: string -> string, search: string): (r: string)
    ensures r == "" <==> nameField == "" && emailField == ""
    ensures r != "" ==> Enclosed(r) && r[..2] == "(|"
  {
    var name := if 0 < |nameField| then "(" + nameField + "=*" + escape(search) + "*)" else "";
    var email := if 0 < |emailField| then "(" + emailField + "=*" + escape(search) + "*)" else "";
    if 0 < |name + email| then "(|" + name + email + ")" else ""
  }

  /** The filter `getContactItemsCount` and `getContactItems` search with. */
  function SearchFilter(base: string, nameField: string, emailField: string, escape: string -> string, search: string): (r: string)
    ensures r == base <==> search == ""
    ensures Enclosed(base) ==> Enclosed(r)
  {
    if 0 < |search| then "(&" + SearchRequest(nameField, emailField, escape, search) + base + ")" else base
  }

  /** The filter `onAfterGetContact` searches with. */
  function LookupFilter(base: string, uidField: string, escapedId: string): (r: string)
    ensures Enclosed(r) && r[..2] == "(&"
    ensures 2 + |base| <= |r| && r[2..2 + |base|] == base
  {
    "(&" + base + "(" + uidField + "=" + escapedId + "))"
  }

  // ---------------------------------------------------------------------
  // The same filters as trees
  // ---------------------------------------------------------------------

  function BaseTree(objectClass: string, emailField: string, skipEmptyEmail: bool): Filter {
    var f := Equal("objectClass", objectClass);
    if skipEmptyEmail && 0 < |emailField| then And([f, Substring(emailField, "@")]) else f
  }

  /** One substring clause for each configured attribute among name and e-mail. */
  function TextClauses(nameField: string, emailField: string, escaped: string): seq<Filter> {
    (if 0 < |nameField| then [Substring(nameField, escaped)] else [])
    + (if 0 < |emailField| then [Substring(emailField, escaped)] else [])
  }

  function SearchTree(base: Filter, nameField: string, emailField: string, escaped: string, search: string): Filter {
    if |search| == 0 then base
    else
      var clauses := TextClauses(nameField, emailField, escaped);
      And((if clauses == [] then [] else [Or(clauses)]) + [base])
  }

  function LookupTree(base: Filter, uidField: string, escapedId: string): Filter {
    And([base, Equal(uidField, escapedId)])
  }

  // ---------------------------------------------------------------------
  // The strings are the rendered trees
  // ---------------------------------------------------------------------

  lemma BaseFilterRenders(objectClass: string, emailField: string, skipEmptyEmail: bool)
    ensures BaseFilter(objectClass, emailField, skipEmptyEmail) == Render(BaseTree(objectClass, emailField, skipEmptyEmail))
  {
    if skipEmptyEmail && 0 < |emailField| {
      var c, m := Equal("objectClass", objectClass), Substring(emailField, "@");
      RenderPair(c, m);
      var rc, rm := Render(c), Render(m);
      assert rc == "(objectClass=" + objectClass + ")";
      assert rm == "(" + emailField + "=*@*)";
      calc {
        Render(And([c, m]));
        "(&" + (rc + rm) + ")";
        "(&" + rc + ("(" + emailField + "=*@*)") + ")";
        "(&" + rc + "(" + emailField + "=*@*))";
      }
    }
  }

  lemma SearchRequestRenders(nameField: string, emailField: string, escape: string -> string, search: string)
    ensures var clauses := TextClauses(nameField, emailField, escape(search));
      SearchRequest(nameField, emailField, escape, search) == if clauses == [] then "" else Render(Or(clauses))
  {
    var e := escape(search);
    var n, m := Substring(nameField, e), Substring(emailField, e);
    if 0 < |nameField| && 0 < |emailField| {
      RenderPair(n, m);
    } else if 0 < |nameField| {
      RenderOne(n);
      assert TextClauses(nameField, emailField, e) == [n];
      assert "(" + nameField + "=*" + e + "*)" + "" == Render(n);
    } else if 0 < |emailField| {
      RenderOne(m);
      assert TextClauses(nameField, emailField, e) == [m];
      assert "" + ("(" + emailField + "=*" + e + "*)") == Render(m);
    }
  }

  lemma SearchFilterRenders(base: Filter, nameField: string, emailField: string, escape: string -> string, search: string)
    ensures SearchFilter(Render(base), nameField, emailField, escape, search)
         == Render(SearchTree(base, nameField, emailField, escape(search), search))
  {
    if 0 < |search| {
      var clauses := TextClauses(nameField, emailField, escape(search));
      SearchRequestRenders(nameField, emailField, escape, search);
      if clauses == [] {
        RenderOne(base);
        assert [] + [base] == [base];
        assert "(&" + "" + Render(base) + ")" == "(&" + Render(base) + ")";
      } else {
        assert [Or(clauses)] + [base] == [Or(clauses), base];
        RenderPair(Or(clauses), base);
      }
    }
  }

  lemma LookupFilterRenders(base: Filter, uidField: string, escapedId: string)
    ensures LookupFilter(Render(base), uidField, escapedId) == Render(LookupTree(base, uidField, escapedId))
  {
    RenderPair(base, Equal(uidField, escapedId));
  }

  // ---------------------------------------------------------------------
  // Exact outputs
  // ---------------------------------------------------------------------

  /** The base filter is a conjunction exactly when empty e-mails are skipped and an e-mail attribute is configured. */
  lemma BaseFilterConjunction(objectClass: string, emailField: string, skipEmptyEmail: bool)
    ensures var f := BaseFilter(objectClass, emailField, skipEmptyEmail);
      2 <= |f| && (f[..2] == "(&" <==> skipEmptyEmail && 0 < |emailField|)
    ensures !(skipEmptyEmail && 0 < |emailField|) ==> BaseFilter(objectClass, emailField, skipEmptyEmail) == "(objectClass=" + objectClass + ")"
  {
    var f := BaseFilter(objectClass, emailField, skipEmptyEmail);
    if !(skipEmptyEmail && 0 < |emailField|) {
      assert f[1] == 'o';
    }
  }

  /** A single configured attribute still yields a disjunction, of one clause. */
  lemma SearchRequestSingle(nameField: string, emailField: string, escape: string -> string, search: string)
    requires (nameField == "") != (emailField == "")
    ensures SearchRequest(nameField, emailField, escape, search)
         == "(|(" + (if nameField != "" then nameField else emailField) + "=*" + escape(search) + "*))"
  {
  }

  /** An empty search string leaves the base filter alone; any other wraps it after the free-text clause. */
  lemma SearchFilterShape(base: string, nameField: string, emailField: string, escape: string -> string, search: string)
    ensures var f := SearchFilter(base, nameField, emailField, escape, search);
      (search == "" ==> f == base)
      && (search != "" ==> f[..2] == "(&" && f[|f| - |base| - 1..|f| - 1] == base && f[|f| - 1] == ')')
  {
  }

  // ---------------------------------------------------------------------
  // What the trees select
  // ---------------------------------------------------------------------

  predicate Infix(s: string, x: string) {
    exists i, j :: 0 <= i <= j <= |x| && x[i..j] == s
  }

  /**
   * Whether an entry, given as lower-case attribute names to values, satisfies
   * a filter: attribute names compare case-insensitively and values compare as
   * plain text (escaping and matching rules are the server's).
   */
  predicate Matches(f: Filter, entry: map<string, seq<string>>)
    decreases f
  {
    match f
    case And(fs) => forall i :: 0 <= i < |fs| ==> Matches(fs[i], entry)
    case Or(fs) => exists i :: 0 <= i < |fs| && Matches(fs[i], entry)
    case Equal(a, v) => Lower(a) in entry && v in entry[Lower(a)]
    case Substring(a, s) => Lower(a) in entry && exists x :: x in entry[Lower(a)] && Infix(s, x)
  }

  /** An entry some e-mail value of which contains "@". */
  predicate HasEmail(emailField: string, entry: map<string, seq<string>>) {
    Lower(emailField) in entry && exists x :: x in entry[Lower(emailField)] && Infix("@", x)
  }

  /** A search string only narrows what the base filter selects. */
  lemma SearchNarrows(base: Filter, nameField: string, emailField: string, escaped: string, search: string, entry: map<string, seq<string>>)
    requires Matches(SearchTree(base, nameField, emailField, escaped, search), entry)
    ensures Matches(base, entry)
  {
    if |search| != 0 {
      var clauses := TextClauses(nameField, emailField, escaped);
      var fs := (if clauses == [] then [] else [Or(clauses)]) + [base];
      assert fs[|fs| - 1] == base;
    }
  }

  /** With a non-empty search, an entry is selected iff the base filter selects it and a configured attribute contains the escaped text. */
  lemma SearchTreeMatches(base: Filter, nameField: string, emailField: string, escaped: string, search: string, entry: map<string, seq<string>>)
    requires search != ""
    ensures Matches(SearchTree(base, nameField, emailField, escaped, search), entry)
        <==> Matches(base, entry)
             && (TextClauses(nameField, emailField, escaped) != [] ==>
                   (nameField != "" && Matches(Substring(nameField, escaped), entry))
                   || (emailField != "" && Matches(Substring(emailField, escaped), entry)))
  {
    var clauses := TextClauses(nameField, emailField, escaped);
    var fs := (if clauses == [] then [] else [Or(clauses)]) + [base];
    assert fs[|fs| - 1] == base;
    if clauses != [] {
      assert fs[0] == Or(clauses);
      var n, m := Substring(nameField, escaped), Substring(emailField, escaped);
      if nameField != "" && emailField != "" {
        assert clauses == [n, m];
        assert Matches(Or(clauses), entry) <==> Matches(n, entry) || Matches(m, entry) by {
          assert clauses[0] == n && clauses[1] == m;
        }
      } else if nameField != "" {
        assert clauses == [n];
        assert Matches(Or(clauses), entry) <==> Matches(n, entry) by { assert clauses[0] == n; }
      } else {
        assert clauses == [m];
        assert Matches(Or(clauses), entry) <==> Matches(m, entry) by { assert clauses[0] == m; }
      }
    }
  }

  /** With empty e-mails skipped, every entry the base filter selects has an e-mail containing "@". */
  lemma SkipEmptyEmailSelects(objectClass: string, emailField: string, entry: map<string, seq<string>>)
    requires 0 < |emailField|
    ensures Matches(BaseTree(objectClass, emailField, true), entry)
        <==> Matches(Equal("objectClass", objectClass), entry) && HasEmail(emailField, entry)
  {
    var fs := [Equal("objectClass", objectClass), Substring(emailField, "@")];
    assert Matches(And(fs), entry) <==> Matches(fs[0], entry) && Matches(fs[1], entry);
  }

  /** The lookup selects the entries of the base filter whose uid attribute holds the escaped id. */
  lemma LookupTreeMatches(base: Filter, uidField: string, escapedId: string, entry: map<string, seq<string>>)
    ensures Matches(LookupTree(base, uidField, escapedId), entry)
        <==> Matches(base, entry) && Lower(uidField) in entry && escapedId in entry[Lower(uidField)]
  {
    var fs := [base, Equal(uidField, escapedId)];
    assert Matches(And(fs), entry) <==> Matches(fs[0], entry) && Matches(fs[1], entry);
  }
}
