/**
 * The `Ticket` query scopes as order-preserving filters over the table's rows:
 * `search` (case-insensitive `LIKE` on title or description) and the exact-match
 * `by_status`, `by_priority` and `by_creator`. A blank argument leaves the
 * relation as it is; otherwise each scope adds one `WHERE` condition.
 */
module Scopes {
  import opened Optional
  import opened Text
  import opened Sequences
  import opened Tickets

  /** The `LIKE` pattern of a search: the lower-cased query between two `%` wildcards. */
  function SearchPattern(query: string): string {
    "%" + Downcase(query) + "%"
  }

  /**
   * The lower-cased column matches the pattern. A NULL column makes the
   * comparison NULL, which a `WHERE` clause treats as not satisfied.
   */
  predicate ColumnLike(column: Option<string>, pattern: string) {
    column.Some? && Like(Downcase(column.value), pattern)
  }

  /** The search condition: the title or the description matches (app/models/ticket.rb:12). */
  predicate MatchesSearch(t: Ticket, query: string) {
    var pattern := SearchPattern(query);
    ColumnLike(t.title, pattern) || ColumnLike(t.description, pattern)
  }

  /** The intended meaning of a search: case-insensitive substring of a non-NULL title or description. */
  predicate MentionsText(t: Ticket, query: string) {
    var q := Downcase(query);
    (t.title.Some? && Contains(Downcase(t.title.value), q))
    || (t.description.Some? && Contains(Downcase(t.description.value), q))
  }

  /** For a query free of `%` and `_`, the `LIKE` condition is exactly `MentionsText`. */
  lemma MatchesSearchIsSubstring(t: Ticket, query: string)
    requires NoWildcards(query)
    ensures MatchesSearch(t, query) <==> MentionsText(t, query)
  {
    DowncaseKeepsNoWildcards(query);
    if t.title.Some? {
      LikeContains(Downcase(t.title.value), Downcase(query));
    }
    if t.description.Some? {
      LikeContains(Downcase(t.description.value), Downcase(query));
    }
  }

  /** The `search` scope (app/models/ticket.rb:9-14). */
  function Search(tickets: seq<Ticket>, query: Option<string>): (r: seq<Ticket>)
    ensures IsSubsequence(r, tickets)
    ensures IsBlank(query) ==> r == tickets
    ensures forall t :: t in r <==> t in tickets && (IsBlank(query) || MatchesSearch(t, query.value))
  {
    if IsPresent(query) then
      var matches := (t: Ticket) => MatchesSearch(t, query.value);
      FilterMembers(tickets, matches);
      Filter(tickets, matches)
    else
      SubsequenceReflexive(tickets);
      tickets
  }

  /** The `by_status` scope (app/models/ticket.rb:15). */
  function ByStatus(tickets: seq<Ticket>, status: Option<string>): (r: seq<Ticket>)
    ensures IsSubsequence(r, tickets)
    ensures IsBlank(status) ==> r == tickets
    ensures forall t :: t in r <==> t in tickets && (IsBlank(status) || t.status == status)
  {
    if IsPresent(status) then
      var matches := (t: Ticket) => t.status == status;
      FilterMembers(tickets, matches);
      Filter(tickets, matches)
    else
      SubsequenceReflexive(tickets);
      tickets
  }

  /**
   * The `by_priority` scope (app/models/ticket.rb:16). It mirrors `by_status`
   * on the priority column, so its contract is `ByStatus`'s with the column renamed.
   */
  function ByPriority(tickets: seq<Ticket>, priority: Option<string>): (r: seq<Ticket>)
    ensures IsSubsequence(r, tickets)
    ensures IsBlank(priority) ==> r == tickets
    ensures forall t :: t in r <==> t in tickets && (IsBlank(priority) || t.priority == priority)
  {
    if IsPresent(priority) then
      var matches := (t: Ticket) => t.priority == priority;
      FilterMembers(tickets, matches);
      Filter(tickets, matches)
    else
      SubsequenceReflexive(tickets);
      tickets
  }

  /** The `by_creator` scope (app/models/ticket.rb:17). */
  function ByCreator(tickets: seq<Ticket>, creator: Option<string>): (r: seq<Ticket>)
    ensures IsSubsequence(r, tickets)
    ensures IsBlank(creator) ==> r == tickets
    ensures forall t :: t in r <==> t in tickets && (IsBlank(creator) || t.createdBy == creator)
  {
    if IsPresent(creator) then
      var matches := (t: Ticket) => t.createdBy == creator;
      FilterMembers(tickets, matches);
      Filter(tickets, matches)
    else
      SubsequenceReflexive(tickets);
      tickets
  }

  /** One scope call with its argument, as a request parameter selects it. */
  datatype Scope =
    | SearchFor(query: Option<string>)
    | StatusIs(status: Option<string>)
    | PriorityIs(priority: Option<string>)
    | CreatedBy(creator: Option<string>)

  /** The condition a scope puts on a single ticket; a blank argument puts none. */
  predicate Admits(scope: Scope, t: Ticket) {
    match scope
    case SearchFor(q) => IsBlank(q) || MatchesSearch(t, q.value)
    case StatusIs(s) => IsBlank(s) || t.status == s
    case PriorityIs(p) => IsBlank(p) || t.priority == p
    case CreatedBy(c) => IsBlank(c) || t.createdBy == c
  }

  function Apply(scope: Scope, tickets: seq<Ticket>): seq<Ticket> {
    match scope
    case SearchFor(q) => Search(tickets, q)
    case StatusIs(s) => ByStatus(tickets, s)
    case PriorityIs(p) => ByPriority(tickets, p)
    case CreatedBy(c) => ByCreator(tickets, c)
  }

  /** Every scope is the selection of the tickets it admits, in table order. */
  lemma ApplyIsFilter(scope: Scope, tickets: seq<Ticket>)
    ensures Apply(scope, tickets) == Filter(tickets, t => Admits(scope, t))
  {
    var admits := (t: Ticket) => Admits(scope, t);
    match scope
    case SearchFor(q) =>
      if IsBlank(q) {
        FilterAll(tickets, admits);
      } else {
        FilterPointwise(tickets, t => MatchesSearch(t, q.value), admits);
      }
    case StatusIs(s) =>
      if IsBlank(s) {
        FilterAll(tickets, admits);
      } else {
        FilterPointwise(tickets, (t: Ticket) => t.status == s, admits);
      }
    case PriorityIs(p) =>
      if IsBlank(p) {
        FilterAll(tickets, admits);
      } else {
        FilterPointwise(tickets, (t: Ticket) => t.priority == p, admits);
      }
    case CreatedBy(c) =>
      if IsBlank(c) {
        FilterAll(tickets, admits);
      } else {
        FilterPointwise(tickets, (t: Ticket) => t.createdBy == c, admits);
      }
  }

  /** A ticket is in a scope's result exactly when it is in the input and the scope admits it. */
  lemma ApplyMembership(scope: Scope, tickets: seq<Ticket>, t: Ticket)
    ensures t in Apply(scope, tickets) <==> t in tickets && Admits(scope, t)
    ensures multiset(Apply(scope, tickets))[t] == if Admits(scope, t) then multiset(tickets)[t] else 0
  {
    ApplyIsFilter(scope, tickets);
    FilterMembership(tickets, t => Admits(scope, t), t);
    FilterCount(tickets, t => Admits(scope, t), t);
  }

  /** Any two scopes commute. */
  lemma ScopesCommute(a: Scope, b: Scope, tickets: seq<Ticket>)
    ensures Apply(a, Apply(b, tickets)) == Apply(b, Apply(a, tickets))
  {
    var pa := (t: Ticket) => Admits(a, t);
    var pb := (t: Ticket) => Admits(b, t);
    ApplyIsFilter(b, tickets);
    ApplyIsFilter(a, Apply(b, tickets));
    ApplyIsFilter(a, tickets);
    ApplyIsFilter(b, Apply(a, tickets));
    FilterCommutes(tickets, pa, pb);
  }

  /** Applying the same scope twice is applying it once. */
  lemma ScopeIdempotent(scope: Scope, tickets: seq<Ticket>)
    ensures Apply(scope, Apply(scope, tickets)) == Apply(scope, tickets)
  {
    var r := Apply(scope, tickets);
    ApplyIsFilter(scope, tickets);
    ApplyIsFilter(scope, r);
    forall t | t in r ensures Admits(scope, t) {
      ApplyMembership(scope, tickets, t);
    }
    FilterAll(r, t => Admits(scope, t));
  }

  /** A chain of scope calls, `Ticket.search(q).by_status(s)...`, applied left to right. */
  function Chain(tickets: seq<Ticket>, scopes: seq<Scope>): seq<Ticket>
    decreases |scopes|
  {
    if scopes == [] then tickets else Chain(Apply(scopes[0], tickets), scopes[1..])
  }

  predicate AdmitsAll(scopes: seq<Scope>, t: Ticket) {
    forall i :: 0 <= i < |scopes| ==> Admits(scopes[i], t)
  }

  lemma AdmitsAllCons(scopes: seq<Scope>, t: Ticket)
    requires scopes != []
    ensures AdmitsAll(scopes, t) <==> Admits(scopes[0], t) && AdmitsAll(scopes[1..], t)
  {
    if Admits(scopes[0], t) && AdmitsAll(scopes[1..], t) {
      forall i | 0 <= i < |scopes| ensures Admits(scopes[i], t) {
        if i > 0 { assert scopes[i] == scopes[1..][i - 1]; }
      }
    }
  }

  /** A chain of scopes selects by the conjunction of their conditions (SQL `AND`). */
  lemma {:induction false} ChainIsConjunction(tickets: seq<Ticket>, scopes: seq<Scope>)
    ensures Chain(tickets, scopes) == Filter(tickets, t => AdmitsAll(scopes, t))
    decreases |scopes|
  {
    var all := (t: Ticket) => AdmitsAll(scopes, t);
    if scopes == [] {
      FilterAll(tickets, all);
    } else {
      var first := (t: Ticket) => Admits(scopes[0], t);
      var rest := (t: Ticket) => AdmitsAll(scopes[1..], t);
      var selected := Apply(scopes[0], tickets);
      ApplyIsFilter(scopes[0], tickets);
      ChainIsConjunction(selected, scopes[1..]);
      forall t | t in tickets ensures all(t) == (first(t) && rest(t)) {
        AdmitsAllCons(scopes, t);
      }
      FilterFilter(tickets, first, rest, all);
    }
  }

  /** The order in which scopes are chained does not matter, only which scopes are chained. */
  lemma ChainOrderIrrelevant(tickets: seq<Ticket>, scopes: seq<Scope>, reordered: seq<Scope>)
    requires multiset(scopes) == multiset(reordered)
    ensures Chain(tickets, scopes) == Chain(tickets, reordered)
  {
    ChainIsConjunction(tickets, scopes);
    ChainIsConjunction(tickets, reordered);
    forall t | t in tickets ensures AdmitsAll(scopes, t) == AdmitsAll(reordered, t) {
      if AdmitsAll(scopes, t) {
        forall i | 0 <= i < |reordered| ensures Admits(reordered[i], t) {
          assert reordered[i] in multiset(scopes);
          var j :| 0 <= j < |scopes| && scopes[j] == reordered[i];
        }
      }
      if AdmitsAll(reordered, t) {
        forall i | 0 <= i < |scopes| ensures Admits(scopes[i], t) {
          assert scopes[i] in multiset(reordered);
          var j :| 0 <= j < |reordered| && reordered[j] == scopes[i];
        }
      }
    }
    FilterPointwise(tickets, t => AdmitsAll(scopes, t), t => AdmitsAll(reordered, t));
  }

  /** For a wildcard-free, present query, search keeps exactly the tickets mentioning it. */
  lemma SearchFindsMentions(tickets: seq<Ticket>, query: string)
    requires IsPresent(Some(query)) && NoWildcards(query)
    ensures Search(tickets, Some(query)) == Filter(tickets, t => MentionsText(t, query))
  {
    forall t | t in tickets ensures MatchesSearch(t, query) == MentionsText(t, query) {
      MatchesSearchIsSubstring(t, query);
    }
    FilterPointwise(tickets, t => MatchesSearch(t, query), t => MentionsText(t, query));
  }

  /** Search ignores the case of the query: queries equal up to case select the same tickets. */
  lemma SearchIgnoresQueryCase(tickets: seq<Ticket>, q1: string, q2: string)
    requires Downcase(q1) == Downcase(q2)
    ensures Search(tickets, Some(q1)) == Search(tickets, Some(q2))
  {
    DowncaseKeepsBlank(q1);
    DowncaseKeepsBlank(q2);
    if IsPresent(Some(q1)) {
      FilterPointwise(tickets, t => MatchesSearch(t, q1), t => MatchesSearch(t, q2));
    }
  }

  /** Search ignores the case of the stored text: tickets equal up to case match alike. */
  lemma SearchIgnoresDataCase(t: Ticket, u: Ticket, query: string)
    requires t.title.Some? <==> u.title.Some?
    requires t.title.Some? ==> Downcase(t.title.value) == Downcase(u.title.value)
    requires t.description.Some? <==> u.description.Some?
    requires t.description.Some? ==> Downcase(t.description.value) == Downcase(u.description.value)
    ensures MatchesSearch(t, query) <==> MatchesSearch(u, query)
  {
  }

  /** A row appended to the table shows up at the end of every scope that admits it. */
  lemma ApplyAppend(scope: Scope, tickets: seq<Ticket>, t: Ticket)
    ensures Apply(scope, tickets + [t]) ==
              Apply(scope, tickets) + (if Admits(scope, t) then [t] else [])
  {
    var admits := (x: Ticket) => Admits(scope, x);
    ApplyIsFilter(scope, tickets + [t]);
    ApplyIsFilter(scope, tickets);
    FilterAppend(tickets, [t], admits);
    assert [t][1..] == [];
  }
}
