# Ticket model of a minimal issue tracker

A Dafny model of the `Ticket` record of a small Rails issue tracker. A ticket has a title, a
description, a status, a priority and a creator. Every column is a nullable string, so each
attribute is an `Option<string>`. The model covers the three things the record does:

- **Validation.** The title must be present. A non-blank description is at most 5000
  characters. A non-blank status is one of `open`, `in_progress`, `closed`. A non-blank
  priority is one of `low`, `medium`, `high`, `urgent`. Every rule runs and every failure is
  reported. The enumeration messages start with the rejected value. The creator is never
  checked.
- **Defaults on save.** After validation passes, the `before_save` callback sets a nil
  status to `open` and a nil priority to `medium`. It changes the record object in place,
  and the record's attributes are then inserted into the table.
- **Query scopes.** `search`, `by_status`, `by_priority` and `by_creator` are
  order-preserving filters over the table's rows. A blank argument leaves the rows unchanged.
  Otherwise `search` keeps the rows whose lower-cased title or description matches the SQL
  `LIKE` pattern `%query%`, with the query lower-cased. The other three keep exact matches.
  Scopes chain as a conjunction.

Modules:

- `Optional`: the `Option` type.
- `Text`: ASCII `blank?`/`present?`, ASCII lower-casing, substring containment and SQL `LIKE`.
- `Sequences`: order-preserving `Filter` and subsequences.
- `Tickets`: the record's attributes, the validation rules and the defaults as functions.
- `Scopes`: the four scopes, and how they compose.
- `TicketStore`: the record object (`TicketRecord`) with in-place `SetDefaultValues`, and the
  table (`TicketTable`) with `Save` and `Create`.
- `Scenarios`: what the repository's specs and seed data exercise, stated as lemmas.

Three behaviours of the code are easy to misread, and the model keeps each as written:

- Defaults are assigned only to a **nil** status or priority, because Ruby's `||=` tests for
  nil. A status of `""` or `"  "` passes validation, since blank values are allowed, and is
  stored as it is. It is not replaced by `open` (`Tickets.DefaultsFillOnlyNil`,
  `Scenarios.EmptyStatusKept`).
- The length rule is skipped for **blank** descriptions, not only for missing ones. A
  description of 6000 spaces is accepted.
- The search query is put into a `LIKE` pattern without escaping, so `%` and `_` in a query
  act as wildcards. The model keeps that behaviour (`Text.Like`). It proves that the search
  is plain case-insensitive substring search only for queries with neither character
  (`Scopes.SearchFindsMentions`).

## Model

| member | source | states |
|---|---|---|
| `Tickets.FieldAccepts` | app/models/ticket.rb:2-5 | defines, field by field and independently of `Validate`, when each rule accepts: a present title, a blank or at most 5000-character description, a blank or listed status and priority; `ValidIffAllFieldsAccept` and `ErrorsOnField` tie it to `Validate` |
| `Tickets.Validate` | app/models/ticket.rb:2-5 | the title error is reported iff the title is blank; the description error iff the description is non-blank and longer than 5000; `InvalidStatus(v)` iff the status is the non-blank `v` outside the three statuses; `InvalidPriority(v)` likewise for the four priorities; at most one error per field |
| `Tickets.ValidationError.Message` | app/models/ticket.rb:4-5 | the status and priority messages begin with the rejected value |
| `Tickets.ErrorsOn` | spec/models/ticket_spec.rb:14 | `errors[field]`: the messages recorded against one attribute, in order, never more than the errors; `ErrorsOnField` and `ErrorsOnIsRule` state what it holds after validation |
| `Tickets.ErrorsOnField` | app/models/ticket.rb:2-5 | the messages recorded on a field are empty when its rule accepts, and one message otherwise: "can't be blank" for the title, the value followed by " is not a valid status"/" is not a valid priority" for the enumerations |
| `Tickets.ErrorsOnIsRule` | app/models/ticket.rb:2-5 | the errors `Validate` records on a field are exactly those of that field's own rule |
| `Tickets.ValidIffAllFieldsAccept` | app/models/ticket.rb:2-5 | a ticket is valid iff each of the four field rules accepts it (no short-circuit: every failure is reported) |
| `Tickets.FieldErrorsIndependent` | app/models/ticket.rb:2-5 | two tickets that agree on a field get the same errors on that field, whatever their other fields hold |
| `Tickets.CreatorNeverValidated` | app/models/ticket.rb:2-5 | changing `created_by` never changes the validation result |
| `Tickets.TitleDecides` | spec/models/ticket_spec.rb:6-15 | a ticket with only a title is valid iff the title is present; a blank title makes any ticket invalid with "can't be blank" on the title |
| `Tickets.WithDefaults` | app/models/ticket.rb:23-26 | the `||=` defaults: status and priority are non-nil afterwards and title, description and creator are untouched; `DefaultsFillOnlyNil` gives the exact values, `DefaultsIdempotent` and `DefaultsKeepErrors` its other properties |
| `Tickets.DefaultsFillOnlyNil` | app/models/ticket.rb:23-26 | after defaults status and priority are non-nil; a non-nil status or priority (including "") is kept; a nil status becomes "open" and a nil priority "medium", both allowed values; title, description and creator are untouched |
| `Tickets.DefaultsIdempotent` | app/models/ticket.rb:23-26 | applying the defaults twice equals applying them once |
| `Tickets.DefaultsKeepErrors` | app/models/ticket.rb:19-26 | defaults leave the validation result unchanged, so a valid ticket stays valid |
| `Text.IsBlank` | app/models/ticket.rb:2-5 | `blank?` on a nullable string: nil, empty or ASCII whitespace only; the rules with `allow_blank` skip such values |
| `Text.IsPresent` | app/models/ticket.rb:10 | `present?`, the negation of `IsBlank`; it decides whether each scope adds its condition (also lines 15-17) |
| `Text.Downcase` | app/models/ticket.rb:11-12 | `downcase` and SQL `LOWER` on ASCII; its properties are in `DowncaseAt` and `DowncaseKeepsBlank` |
| `Text.DowncaseAt` | app/models/ticket.rb:11-12 | lower-casing keeps the length and maps every character on its own, `A`-`Z` to `a`-`z` |
| `Text.Like` | app/models/ticket.rb:12 | SQL `LIKE` with `%` (any run of characters) and `_` (any one character) and no escape character; `LikeContains`, `LikePrefix` and `LikeAnything` state what it matches |
| `Text.DowncaseKeepsBlank` | app/models/ticket.rb:10-11 | lower-casing a string neither makes it blank nor makes it non-blank |
| `Text.LikeContains` | app/models/ticket.rb:11-12 | for a pattern text without `%` or `_`, `s LIKE '%q%'` holds iff `q` is a substring of `s` |
| `Text.LikePrefix` | app/models/ticket.rb:11-12 | for wildcard-free `q`, `s LIKE 'q%'` holds iff `s` starts with `q` |
| `Text.ContainsAt` | app/models/ticket.rb:12 | substring containment holds iff the query occurs at some position |
| `Scopes.MatchesSearch` | app/models/ticket.rb:11-12 | the `WHERE` condition of `search`: the lower-cased title or description, when not NULL, is `LIKE '%q%'` for the lower-cased query `q`; `MatchesSearchIsSubstring` relates it to `MentionsText` |
| `Scopes.MatchesSearchIsSubstring` | app/models/ticket.rb:11-12 | for a wildcard-free query the search condition holds iff the lower-cased non-NULL title or description contains the lower-cased query |
| `Scopes.Search` | app/models/ticket.rb:9-14 | the result is a subsequence of the input; a blank query returns the input; otherwise a ticket is in the result iff it is in the input and its lower-cased title or description matches `%query%` |
| `Scopes.ByStatus` | app/models/ticket.rb:15 | the result is a subsequence of the input; a blank status returns the input; otherwise a ticket is in the result iff it is in the input and has exactly that status (case-sensitive) |
| `Scopes.ByPriority` | app/models/ticket.rb:16 | the same for the priority |
| `Scopes.ByCreator` | app/models/ticket.rb:17 | the same for `created_by` |
| `Scopes.ApplyIsFilter` | app/models/ticket.rb:9-17 | each scope equals the order-preserving selection of the tickets its condition admits; a blank argument admits all |
| `Scopes.ApplyMembership` | app/models/ticket.rb:9-17 | a ticket is in a scope's result iff it is in the input and admitted; each admitted ticket keeps its multiplicity |
| `Scopes.SearchFindsMentions` | app/models/ticket.rb:9-14 | a present, wildcard-free search keeps exactly the tickets whose lower-cased title or description contains the lower-cased query |
| `Scopes.SearchIgnoresQueryCase` | app/models/ticket.rb:10-11 | two queries equal up to case give the same result |
| `Scopes.SearchIgnoresDataCase` | app/models/ticket.rb:12 | two tickets whose texts are equal up to case match the same queries |
| `Scopes.ScopesCommute` | app/models/ticket.rb:9-17 | any two scopes commute |
| `Scopes.ScopeIdempotent` | app/models/ticket.rb:9-17 | applying a scope twice equals applying it once |
| `Scopes.Chain` | app/models/ticket.rb:9-17 | a chain of scope calls applied left to right; `ChainIsConjunction` and `ChainOrderIrrelevant` state its meaning |
| `Scopes.ChainIsConjunction` | app/models/ticket.rb:9-17 | a chain of scopes selects the tickets admitted by all of them (SQL `AND`) |
| `Scopes.ChainOrderIrrelevant` | app/models/ticket.rb:9-17 | chains that contain the same scopes in a different order give the same result |
| `Scopes.ApplyAppend` | app/models/ticket.rb:9-19 | a row appended to the table appears at the end of exactly the scopes that admit it |
| `TicketStore.TicketRecord.constructor` | app/models/ticket.rb:1 | a new record holds the given attributes and no errors |
| `TicketStore.TicketRecord.CheckValid` | app/models/ticket.rb:2-5 | `valid?` sets `errors` to the validation errors, answers whether there are none, and changes no attribute |
| `TicketStore.TicketRecord.SetDefaultValues` | app/models/ticket.rb:23-26 | the record's attributes become the defaults applied to its old attributes; only status and priority may change |
| `TicketStore.TicketTable.Save` | app/models/ticket.rb:2-26 | on a valid record, the record receives its defaults and exactly one row, equal to its new attributes, is appended; on an invalid record the rows and the attributes are unchanged; `errors` holds the validation errors; the table invariant (every row valid, status and priority non-nil) is kept |
| `TicketStore.TicketTable.Create` | spec/requests/tickets_spec.rb:26-30 | creating appends exactly one row, the defaulted attributes, iff they are valid, and returns a fresh record |
| `TicketStore.TicketTable.Where` | app/models/ticket.rb:9-17 | a chain of scopes over the table yields a subsequence of the rows holding exactly the rows all the scopes admit |
| `TicketStore.StoredRowsAreWellFormed` | app/models/ticket.rb:2-5 | a stored row has a present title, an allowed or blank status and priority, and a blank or short enough description |
| `Scenarios.TitleExamples` | spec/models/ticket_spec.rb:6-15 | a ticket titled "Test ticket" is valid; one titled "" is invalid with "can't be blank" on the title |
| `Scenarios.DefaultsOnCreate` | spec/models/ticket_spec.rb:17-21 | creating a ticket with only a title yields status "open" and priority "medium" and appends one row |
| `Scenarios.RejectedStatusIsNotStored` | app/models/ticket.rb:4 | creating a ticket with status "bogus" stores nothing and records "bogus is not a valid status" on the status |
| `Scenarios.EmptyStatusKept` | app/models/ticket.rb:4 | a ticket with status "" is valid and the defaults keep "" |
| `Scenarios.SearchKeepsFirst` | spec/models/ticket_spec.rb:23-35 | if only the first of two tickets mentions a plain query, the search returns the first alone |
| `Scenarios.SearchExamples` | spec/models/ticket_spec.rb:23-35 | over the rows "Fix bug"/"authentication problem" and "Add feature"/"new UI", searching "fix" and searching "authentication" each return exactly the first ticket |
| `Scenarios.TitleMentionsFix` | spec/models/ticket_spec.rb:29-31 | "Fix bug" mentions "fix" regardless of case |
| `Scenarios.DescriptionMentionsAuthentication` | spec/models/ticket_spec.rb:33-35 | the description "authentication problem" mentions "authentication" |
| `Scenarios.OtherTicketLacksFix` | spec/models/ticket_spec.rb:29-31 | the ticket "Add feature"/"new UI" does not mention "fix" |
| `Scenarios.OtherTicketLacksAuthentication` | spec/models/ticket_spec.rb:33-35 | the ticket "Add feature"/"new UI" does not mention "authentication" |
| `Scenarios.SeedTicketsAreValid` | db/seeds.rb:9-71 | each of the eight seed records passes validation |

## Left out

- Persistence details: ids, `created_at`/`updated_at`, SQL generation, `destroy_all` and
  `find_by`. The table is the sequence of stored rows in insertion order. No row order is
  claimed beyond keeping that order.
- Saving an already persisted record, which is an UPDATE: records carry no id here, so every
  `Save` is an insert of a new record.
- The migration and the seed script as programs. The migration only fixes the column types.
  The seed script's eight records appear as data in `Scenarios.SeedTicketsAreValid`.
- The HTTP layer: routes, controller, views, status codes and redirects. The controller is
  not part of this model.
- Unicode: `blank?`, `downcase` and `LOWER` are modelled on ASCII only. Whitespace is space,
  tab, newline, vertical tab, form feed and carriage return, and lower-casing maps `A`-`Z`.
- Database differences in `LIKE`: the model follows SQLite, where no escape character is in
  effect. PostgreSQL treats a backslash in the pattern as an escape, and that is not modelled.
- Error message wording beyond "can't be blank" and the two enumeration messages. The
  description message is Rails' default text. Full messages that start with the attribute
  name are not modelled.
- `create!` raises an exception on invalid input. Here `Create` returns `saved == false` instead.
