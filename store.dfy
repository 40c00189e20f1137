/**
 * The save path of a `Ticket`: a record object whose attributes and `errors`
 * are updated in place, and the table it is inserted into, kept in memory as
 * the sequence of stored rows in insertion order.
 */
module TicketStore {
  import opened Optional
  import opened Text
  import opened Sequences
  import opened Tickets
  import opened Scopes

  /** A `Ticket` instance: mutable attributes plus the `errors` of its last validation. */
  class TicketRecord {
    var title: Option<string>
    var description: Option<string>
    var status: Option<string>
    var priority: Option<string>
    var createdBy: Option<string>
    var errors: seq<ValidationError>

    /** `Ticket.new(attributes)` */
    constructor (attributes: Ticket)
      ensures Attributes() == attributes && errors == []
    {
      title := attributes.title;
      description := attributes.description;
      status := attributes.status;
      priority := attributes.priority;
      createdBy := attributes.createdBy;
      errors := [];
    }

    function Attributes(): Ticket
      reads this
    {
      Ticket(title, description, status, priority, createdBy)
    }

    /** `valid?`: clears `errors`, runs every rule, and leaves the attributes alone. */
    method CheckValid() returns (ok: bool)
      modifies this`errors
      ensures errors == Validate(Attributes())
      ensures ok <==> Valid(Attributes())
    {
      errors := Validate(Attributes());
      ok := errors == [];
    }

    /** The `before_save` callback `set_default_values`: `||=` on status and priority. */
    method SetDefaultValues()
      modifies this`status, this`priority
      ensures Attributes() == WithDefaults(old(Attributes()))
    {
      if status.None? {
        status := Some(DefaultStatus);
      }
      if priority.None? {
        priority := Some(DefaultPriority);
      }
    }
  }

  /** A stored row: it passed validation and went through `set_default_values`. */
  predicate Stored(t: Ticket) {
    Valid(t) && t.status.Some? && t.priority.Some?
  }

  /** The `tickets` table. */
  class TicketTable {
    var rows: seq<Ticket>

    /** No row was ever stored without passing validation and receiving its defaults. */
    predicate Consistent()
      reads this
    {
      forall i :: 0 <= i < |rows| ==> Stored(rows[i])
    }

    constructor ()
      ensures rows == [] && Consistent()
    {
      rows := [];
    }

    /**
     * `save` of a new record: validate; if valid, run `before_save` on the
     * record itself and insert its attributes; if invalid, write nothing.
     */
    method Save(r: TicketRecord) returns (saved: bool)
      requires Consistent()
      modifies this, r
      ensures Consistent()
      ensures r.errors == Validate(old(r.Attributes()))
      ensures saved <==> Valid(old(r.Attributes()))
      ensures saved ==> r.Attributes() == WithDefaults(old(r.Attributes()))
      ensures saved ==> rows == old(rows) + [r.Attributes()]
      ensures !saved ==> r.Attributes() == old(r.Attributes()) && rows == old(rows)
    {
      saved := r.CheckValid();
      if saved {
        ghost var before := r.Attributes();
        r.SetDefaultValues();
        DefaultsKeepErrors(before);
        DefaultsFillOnlyNil(before);
        rows := rows + [r.Attributes()];
      }
    }

    /** `Ticket.create(attributes)`; `create!` raises exactly when `saved` is false. */
    method Create(attributes: Ticket) returns (r: TicketRecord, saved: bool)
      requires Consistent()
      modifies this
      ensures fresh(r) && Consistent()
      ensures r.errors == Validate(attributes)
      ensures saved <==> Valid(attributes)
      ensures saved ==> r.Attributes() == WithDefaults(attributes)
                        && rows == old(rows) + [WithDefaults(attributes)]
      ensures !saved ==> r.Attributes() == attributes && rows == old(rows)
    {
      r := new TicketRecord(attributes);
      saved := Save(r);
    }

    /** A relation over the table: the rows selected by a chain of scopes. */
    function Where(scopes: seq<Scope>): (selected: seq<Ticket>)
      reads this
      ensures IsSubsequence(selected, rows)
      ensures forall t :: t in selected <==> t in rows && AdmitsAll(scopes, t)
    {
      ChainIsConjunction(rows, scopes);
      FilterMembers(rows, t => AdmitsAll(scopes, t));
      Chain(rows, scopes)
    }
  }

  /** Every row a consistent table holds has a status and priority that validation accepts. */
  lemma StoredRowsAreWellFormed(t: Ticket)
    requires Stored(t)
    ensures IsPresent(t.title)
    ensures t.status.value in Statuses || IsBlankString(t.status.value)
    ensures t.priority.value in Priorities || IsBlankString(t.priority.value)
    ensures IsBlank(t.description) || |t.description.value| <= MaxDescriptionLength
  {
    ValidIffAllFieldsAccept(t);
  }
}
