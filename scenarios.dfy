/**
 * The behaviour the repository's specs and seed data exercise, stated as
 * lemmas over the model.
 */
module Scenarios {
  import opened Optional
  import opened Text
  import opened Sequences
  import opened Tickets
  import opened Scopes
  import opened TicketStore

  function TitleOnly(title: string): Ticket {
    Ticket(Some(title), None, None, None, None)
  }

  /** "is valid with a title" and "is invalid without a title". */
  lemma TitleExamples()
    ensures Valid(TitleOnly("Test ticket"))
    ensures !Valid(TitleOnly(""))
    ensures "can't be blank" in ErrorsOn(Validate(TitleOnly("")), Title)
  {
    assert !IsSpace("Test ticket"[0]);
    TitleDecides(Some(""), TitleOnly(""));
  }

  /** A rejected status is reported with the value in its message, and nothing is stored. */
  method RejectedStatusIsNotStored(table: TicketTable) returns (r: TicketRecord)
    requires table.Consistent()
    modifies table
    ensures table.rows == old(table.rows)
    ensures r.errors == [InvalidStatus("bogus")]
    ensures ErrorsOn(r.errors, Status) == ["bogus is not a valid status"]
  {
    var attributes := Ticket(Some("Report"), None, Some("bogus"), None, None);
    OnlyStatusRejected(attributes, "bogus");
    var saved;
    r, saved := table.Create(attributes);
  }

  /** The attributes of that scenario fail on the status alone, with the rejected value in the message. */
  lemma OnlyStatusRejected(t: Ticket, v: string)
    requires t == Ticket(Some("Report"), None, Some(v), None, None) && v == "bogus"
    ensures Validate(t) == [InvalidStatus(v)]
    ensures ErrorsOn([InvalidStatus(v)], Status) == ["bogus is not a valid status"]
  {
    assert !IsSpace("Report"[0]) && !IsSpace(v[0]);
    assert v !in Statuses;
    assert ErrorsOn([InvalidStatus(v)], Status) == [InvalidStatus(v).Message()] + ErrorsOn([], Status);
    assert InvalidStatus(v).Message() == "bogus is not a valid status";
  }

  /** "sets default status and priority on save": creating a ticket titled "Defaults" and nothing else. */
  method DefaultsOnCreate(table: TicketTable) returns (r: TicketRecord)
    requires table.Consistent()
    modifies table
    ensures r.status == Some("open") && r.priority == Some("medium")
    ensures table.rows == old(table.rows) + [r.Attributes()]
  {
    assert !IsSpace("Defaults"[0]);
    var saved;
    r, saved := table.Create(TitleOnly("Defaults"));
  }

  /** An empty-string status is not nil, so `||=` keeps it. */
  lemma EmptyStatusKept()
    ensures Valid(Ticket(Some("Blank status"), None, Some(""), None, None))
    ensures WithDefaults(Ticket(Some("Blank status"), None, Some(""), None, None)).status == Some("")
  {
    assert !IsSpace("Blank status"[0]);
  }

  const FixBug: Ticket := Ticket(Some("Fix bug"), Some("authentication problem"), Some("open"), Some("medium"), None)
  const AddFeature: Ticket := Ticket(Some("Add feature"), Some("new UI"), Some("open"), Some("medium"), None)

  /** A ticket none of whose text holds some character of the query does not mention it. */
  lemma NotMentioned(t: Ticket, query: string, c: char)
    requires c in Downcase(query)
    requires t.title.Some? ==> c !in Downcase(t.title.value)
    requires t.description.Some? ==> c !in Downcase(t.description.value)
    ensures !MentionsText(t, query)
  {
    if t.title.Some? {
      MissingCharNotContained(Downcase(t.title.value), Downcase(query), c);
    }
    if t.description.Some? {
      MissingCharNotContained(Downcase(t.description.value), Downcase(query), c);
    }
  }

  /** Of two tickets, only the first mentions the query, so search keeps only it. */
  lemma SearchKeepsFirst(first: Ticket, second: Ticket, query: string)
    requires IsPresent(Some(query)) && NoWildcards(query)
    requires MentionsText(first, query) && !MentionsText(second, query)
    ensures Search([first, second], Some(query)) == [first]
  {
    SearchFindsMentions([first, second], query);
    var mentions := (t: Ticket) => MentionsText(t, query);
    assert [first, second][1..] == [second];
    assert Filter([second], mentions) == [];
  }

  /** `s` starts with `q` once both are lower-cased. */
  lemma LowerPrefix(q: string, s: string)
    requires |q| <= |s|
    requires forall i :: 0 <= i < |q| ==> DowncaseChar(s[i]) == DowncaseChar(q[i])
    ensures Downcase(q) <= Downcase(s)
  {
    DowncaseAt(q);
    DowncaseAt(s);
  }

  /** Lower-casing `s` yields `c` at position `i`. */
  lemma LowerHits(s: string, c: char, i: nat)
    requires i < |s| && DowncaseChar(s[i]) == c
    ensures c in Downcase(s)
  {
    DowncaseAt(s);
    assert Downcase(s)[i] == c;
  }

  /** No character of `s` lower-cases to `c`. */
  lemma LowerMisses(s: string, c: char)
    requires forall i :: 0 <= i < |s| ==> DowncaseChar(s[i]) != c
    ensures c !in Downcase(s)
  {
    DowncaseAt(s);
  }

  /** "finds by title case-insensitive": the first ticket's title mentions "fix". */
  lemma TitleMentionsFix()
    ensures MentionsText(FixBug, "fix")
  {
    LowerPrefix("fix", "Fix bug");
  }

  /** "finds by description case-insensitive": the first ticket's description mentions "authentication". */
  lemma DescriptionMentionsAuthentication()
    ensures MentionsText(FixBug, "authentication")
  {
    LowerPrefix("authentication", "authentication problem");
  }

  /** Neither text of the second ticket holds an `x` or an `h`, in either case. */
  lemma AddFeatureLacks(second: Ticket, c: char)
    requires second == AddFeature && (c == 'x' || c == 'h')
    ensures second.title.Some? ==> c !in Downcase(second.title.value)
    ensures second.description.Some? ==> c !in Downcase(second.description.value)
  {
    LowerMisses("Add feature", c);
    LowerMisses("new UI", c);
  }

  /**
   * The second ticket does not mention "fix". The ticket and the query are
   * parameters pinned by the requires, so the solver does not unfold the
   * literal strings eagerly.
   */
  lemma OtherTicketLacksFix(second: Ticket, query: string)
    requires second == AddFeature && query == "fix"
    ensures !MentionsText(second, query)
  {
    LowerHits(query, 'x', 2);
    AddFeatureLacks(second, 'x');
    NotMentioned(second, query, 'x');
  }

  /** The second ticket does not mention "authentication" (stated as above). */
  lemma OtherTicketLacksAuthentication(second: Ticket, query: string)
    requires second == AddFeature && query == "authentication"
    ensures !MentionsText(second, query)
  {
    LowerHits(query, 'h', 3);
    AddFeatureLacks(second, 'h');
    NotMentioned(second, query, 'h');
  }

  /** Both example queries are present and free of `LIKE` wildcards. */
  lemma ExampleQueriesArePlain(query: string)
    requires query == "fix" || query == "authentication"
    ensures IsPresent(Some(query)) && NoWildcards(query)
  {
    assert !IsSpace(query[0]);
  }

  /** The two search examples: "fix" and "authentication" both find only the first ticket. */
  lemma SearchExamples()
    ensures Search([FixBug, AddFeature], Some("fix")) == [FixBug]
    ensures Search([FixBug, AddFeature], Some("authentication")) == [FixBug]
  {
    ExampleQueriesArePlain("fix");
    TitleMentionsFix();
    OtherTicketLacksFix(AddFeature, "fix");
    SearchKeepsFirst(FixBug, AddFeature, "fix");
    ExampleQueriesArePlain("authentication");
    DescriptionMentionsAuthentication();
    OtherTicketLacksAuthentication(AddFeature, "authentication");
    SearchKeepsFirst(FixBug, AddFeature, "authentication");
  }

  function Seed(title: string, description: string, status: string, priority: string, creator: string): Ticket {
    Ticket(Some(title), Some(description), Some(status), Some(priority), Some(creator))
  }

  /** The eight records the seed script creates. */
  const SeedTickets: seq<Ticket> := [
    Seed("Fix login page bug",
         "Users are unable to login on the mobile app. Need to investigate the authentication flow.",
         "open", "urgent", "john@example.com"),
    Seed("Add dark mode support",
         "Implement dark mode theme across the entire application.",
         "in_progress", "high", "sarah@example.com"),
    Seed("Update documentation",
         "Update API documentation for the new endpoints.",
         "open", "medium", "mike@example.com"),
    Seed("Optimize database queries",
         "Review and optimize slow database queries in the reporting module.",
         "in_progress", "high", "john@example.com"),
    Seed("Add unit tests for payment module",
         "Increase test coverage for the payment processing module.",
         "closed", "medium", "emily@example.com"),
    Seed("Setup CI/CD pipeline",
         "Configure GitHub Actions for automated testing and deployment.",
         "in_progress", "high", "dev-ops@example.com"),
    Seed("Fix typo in welcome email",
         "There's a spelling mistake in the welcome email template.",
         "open", "low", "marketing@example.com"),
    Seed("Implement two-factor authentication",
         "Add 2FA support for enhanced security.",
         "closed", "high", "security@example.com")
  ]

  /** Every seed record passes validation, so `create!` stores all eight. */
  lemma SeedTicketsAreValid(i: nat)
    requires i < |SeedTickets|
    ensures Valid(SeedTickets[i])
  {
    var t := SeedTickets[i];
    assert !IsSpace(t.title.value[0]);
    assert |t.description.value| <= MaxDescriptionLength;
    assert t.status.value in Statuses;
    assert t.priority.value in Priorities;
  }
}
