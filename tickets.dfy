/**
 * The `Ticket` model: its attributes (every column a nullable string), the
 * four validation rules, and the `before_save` default assignment.
 */
module Tickets {
  import opened Optional
  import opened Text

  /** The attributes of one ticket, as the `tickets` table stores them. */
  datatype Ticket = Ticket(
    title: Option<string>,
    description: Option<string>,
    status: Option<string>,
    priority: Option<string>,
    createdBy: Option<string>)

  /** The attributes that carry validation rules. */
  datatype Field = Title | Description | Status | Priority

  const MaxDescriptionLength: nat := 5000
  const Statuses: seq<string> := ["open", "in_progress", "closed"]
  const Priorities: seq<string> := ["low", "medium", "high", "urgent"]
  const DefaultStatus: string := "open"
  const DefaultPriority: string := "medium"

  /** One failed rule; the enumeration errors keep the rejected value. */
  datatype ValidationError =
    | TitleBlank
    | DescriptionTooLong
    | InvalidStatus(value: string)
    | InvalidPriority(value: string)
  {
    function Field(): Field {
      match this
      case TitleBlank => Title
      case DescriptionTooLong => Description
      case InvalidStatus(_) => Status
      case InvalidPriority(_) => Priority
    }

    /** The message Rails attaches to the field. */
    function Message(): (m: string)
      ensures InvalidStatus? ==> value <= m
      ensures InvalidPriority? ==> value <= m
    {
      match this
      case TitleBlank => "can't be blank"
      case DescriptionTooLong => "is too long (maximum is 5000 characters)"
      case InvalidStatus(v) => v + " is not a valid status"
      case InvalidPriority(v) => v + " is not a valid priority"
    }
  }

  function Get(t: Ticket, f: Field): Option<string> {
    match f
    case Title => t.title
    case Description => t.description
    case Status => t.status
    case Priority => t.priority
  }

  // The rules, one per `validates` line.

  /** The title must be present (app/models/ticket.rb:2). */
  function TitleErrors(t: Ticket): seq<ValidationError> {
    if IsBlank(t.title) then [TitleBlank] else []
  }

  /** A non-blank description is at most 5000 characters long (app/models/ticket.rb:3). */
  function DescriptionErrors(t: Ticket): seq<ValidationError> {
    if IsBlank(t.description) || |t.description.value| <= MaxDescriptionLength then []
    else [DescriptionTooLong]
  }

  /** A non-blank status is one of `Statuses` (app/models/ticket.rb:4). */
  function StatusErrors(t: Ticket): seq<ValidationError> {
    if IsBlank(t.status) || t.status.value in Statuses then []
    else [InvalidStatus(t.status.value)]
  }

  /** A non-blank priority is one of `Priorities` (app/models/ticket.rb:5). */
  function PriorityErrors(t: Ticket): seq<ValidationError> {
    if IsBlank(t.priority) || t.priority.value in Priorities then []
    else [InvalidPriority(t.priority.value)]
  }

  /**
   * `valid?`: every rule runs, none stops the others, and the errors come
   * in the order the rules are declared.
   */
  function Validate(t: Ticket): (errors: seq<ValidationError>)
    ensures TitleBlank in errors <==> IsBlank(t.title)
    ensures DescriptionTooLong in errors <==>
              t.description.Some? && !IsBlankString(t.description.value)
              && |t.description.value| > MaxDescriptionLength
    ensures forall v :: InvalidStatus(v) in errors <==>
              t.status == Some(v) && !IsBlankString(v) && v !in Statuses
    ensures forall v :: InvalidPriority(v) in errors <==>
              t.priority == Some(v) && !IsBlankString(v) && v !in Priorities
    ensures forall i, j :: 0 <= i < j < |errors| ==> errors[i].Field() != errors[j].Field()
  {
    RuleErrors(t, Title) + RuleErrors(t, Description) + RuleErrors(t, Status) + RuleErrors(t, Priority)
  }

  predicate Valid(t: Ticket) {
    Validate(t) == []
  }

  /** The rules stated field by field, independently of how `Validate` collects them. */
  predicate FieldAccepts(t: Ticket, f: Field) {
    var v := Get(t, f);
    match f
    case Title => !IsBlank(v)
    case Description => IsBlank(v) || |v.value| <= MaxDescriptionLength
    case Status => IsBlank(v) || v.value in Statuses
    case Priority => IsBlank(v) || v.value in Priorities
  }

  /** The errors of the one rule declared for `f`. */
  function RuleErrors(t: Ticket, f: Field): seq<ValidationError> {
    match f
    case Title => TitleErrors(t)
    case Description => DescriptionErrors(t)
    case Status => StatusErrors(t)
    case Priority => PriorityErrors(t)
  }

  /** `errors[field]`: the messages recorded against one attribute, in order. */
  function ErrorsOn(errors: seq<ValidationError>, f: Field): (messages: seq<string>)
    ensures |messages| <= |errors|
  {
    if errors == [] then []
    else (if errors[0].Field() == f then [errors[0].Message()] else []) + ErrorsOn(errors[1..], f)
  }

  lemma {:induction false} ErrorsOnAppend(a: seq<ValidationError>, b: seq<ValidationError>, f: Field)
    ensures ErrorsOn(a + b, f) == ErrorsOn(a, f) + ErrorsOn(b, f)
    decreases |a|
  {
    if a == [] {
      assert a + b == b;
    } else {
      assert (a + b)[0] == a[0] && (a + b)[1..] == a[1..] + b;
      ErrorsOnAppend(a[1..], b, f);
    }
  }

  /** The rule for `g` records nothing against any other field. */
  lemma RuleErrorsOn(t: Ticket, g: Field, f: Field)
    ensures ErrorsOn(RuleErrors(t, g), f) ==
              if g == f then (if RuleErrors(t, g) == [] then [] else [RuleErrors(t, g)[0].Message()])
              else []
  {
  }

  /** What `Validate` records against `f` is what the rule for `f` records, and no more. */
  lemma ErrorsOnIsRule(t: Ticket, f: Field)
    ensures ErrorsOn(Validate(t), f) == ErrorsOn(RuleErrors(t, f), f)
  {
    var a, b, c, d := RuleErrors(t, Title), RuleErrors(t, Description), RuleErrors(t, Status), RuleErrors(t, Priority);
    assert Validate(t) == a + b + c + d;
    ErrorsOnAppend(a, b, f);
    ErrorsOnAppend(a + b, c, f);
    ErrorsOnAppend(a + b + c, d, f);
    RuleErrorsOn(t, Title, f);
    RuleErrorsOn(t, Description, f);
    RuleErrorsOn(t, Status, f);
    RuleErrorsOn(t, Priority, f);
  }

  /** The errors on `f` are exactly the failure of the rule for `f`, with the message Rails gives. */
  lemma ErrorsOnField(t: Ticket, f: Field)
    ensures FieldAccepts(t, f) ==> ErrorsOn(Validate(t), f) == []
    ensures !FieldAccepts(t, f) ==> |ErrorsOn(Validate(t), f)| == 1
    ensures f == Title && !FieldAccepts(t, f) ==> ErrorsOn(Validate(t), f) == ["can't be blank"]
    ensures f == Status && !FieldAccepts(t, f) ==>
              ErrorsOn(Validate(t), f) == [t.status.value + " is not a valid status"]
    ensures f == Priority && !FieldAccepts(t, f) ==>
              ErrorsOn(Validate(t), f) == [t.priority.value + " is not a valid priority"]
  {
    ErrorsOnIsRule(t, f);
    RuleErrorsOn(t, f, f);
  }

  /** A ticket is valid exactly when every field's rule accepts it. */
  lemma ValidIffAllFieldsAccept(t: Ticket)
    ensures Valid(t) <==>
              FieldAccepts(t, Title) && FieldAccepts(t, Description)
              && FieldAccepts(t, Status) && FieldAccepts(t, Priority)
  {
    var errors := Validate(t);
    if !Valid(t) {
      var e := errors[0];
      match e
      case TitleBlank =>
      case DescriptionTooLong =>
      case InvalidStatus(v) => assert InvalidStatus(v) in errors;
      case InvalidPriority(v) => assert InvalidPriority(v) in errors;
    }
  }

  /** The rules are independent: a field's errors depend on that field alone. */
  lemma FieldErrorsIndependent(t: Ticket, u: Ticket, f: Field)
    requires Get(t, f) == Get(u, f)
    ensures ErrorsOn(Validate(t), f) == ErrorsOn(Validate(u), f)
  {
    ErrorsOnIsRule(t, f);
    ErrorsOnIsRule(u, f);
    assert RuleErrors(t, f) == RuleErrors(u, f);
  }

  /** `created_by` carries no rule: it never affects validation. */
  lemma CreatorNeverValidated(t: Ticket, creator: Option<string>)
    ensures Validate(t.(createdBy := creator)) == Validate(t)
  {
  }

  /** A ticket with nothing but a present title is valid; with a blank title nothing else helps. */
  lemma TitleDecides(title: Option<string>, t: Ticket)
    ensures Valid(Ticket(title, None, None, None, None)) <==> IsPresent(title)
    ensures IsBlank(t.title) ==> !Valid(t) && "can't be blank" in ErrorsOn(Validate(t), Title)
  {
    if IsBlank(t.title) {
      assert Validate(t)[0] == TitleBlank;
    }
  }

  /**
   * The `before_save` callback `set_default_values` (app/models/ticket.rb:23-26).
   * Ruby's `||=` assigns only to a nil attribute: a nil status becomes "open",
   * a nil priority "medium", and a status of "" or "  " is kept as it is.
   */
  function WithDefaults(t: Ticket): (r: Ticket)
    ensures r.status.Some? && r.priority.Some?
    ensures r.title == t.title && r.description == t.description && r.createdBy == t.createdBy
  {
    t.(status := if t.status.None? then Some(DefaultStatus) else t.status,
       priority := if t.priority.None? then Some(DefaultPriority) else t.priority)
  }

  /** Defaults fill exactly the nil status and priority, and nothing else. */
  lemma DefaultsFillOnlyNil(t: Ticket)
    ensures WithDefaults(t).status.Some? && WithDefaults(t).priority.Some?
    ensures t.status.Some? ==> WithDefaults(t).status == t.status
    ensures t.priority.Some? ==> WithDefaults(t).priority == t.priority
    ensures t.status.None? ==> WithDefaults(t).status == Some(DefaultStatus)
    ensures t.priority.None? ==> WithDefaults(t).priority == Some(DefaultPriority)
    ensures DefaultStatus in Statuses && DefaultPriority in Priorities
    ensures WithDefaults(t).title == t.title && WithDefaults(t).description == t.description
    ensures WithDefaults(t).createdBy == t.createdBy
  {
  }

  lemma DefaultsIdempotent(t: Ticket)
    ensures WithDefaults(WithDefaults(t)) == WithDefaults(t)
  {
  }

  /** Defaults never change the outcome of validation: a valid ticket stays valid. */
  lemma DefaultsKeepErrors(t: Ticket)
    ensures Validate(WithDefaults(t)) == Validate(t)
    ensures Valid(t) ==> Valid(WithDefaults(t))
  {
    assert !IsBlankString(DefaultStatus) by { assert !IsSpace(DefaultStatus[0]); }
    assert !IsBlankString(DefaultPriority) by { assert !IsSpace(DefaultPriority[0]); }
  }
}
