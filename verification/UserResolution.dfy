/**
 Get-or-create of users: callers race without a lock, and the one statement that inserts may miss,
 in its own snapshot, the very row it conflicted with.
 */
module UserResolution {
  import opened Wrappers

  datatype Row = Row(id: string, subject: string)

  /** The row a read by subject finds among committed rows, listed in commit order. */
  function Find(rows: seq<Row>, subject: string): (found: Option<Row>)
    ensures found.Some? ==> found.value in rows && found.value.subject == subject
    ensures found == None ==> forall r :: r in rows ==> r.subject != subject
  {
    if rows == [] then None
    else if rows[0].subject == subject then Some(rows[0])
    else Find(rows[1..], subject)
  }

  /** The schema's unique subject. */
  ghost predicate UniqueSubjects(rows: seq<Row>) {
    forall i, j :: 0 <= i < j < |rows| ==> rows[i].subject != rows[j].subject
  }

  lemma AppendUnique(rows: seq<Row>, row: Row)
    requires UniqueSubjects(rows) && Find(rows, row.subject) == None
    ensures UniqueSubjects(rows + [row])
  {
    assert forall i :: 0 <= i < |rows| ==> rows[i] in rows;
  }

  lemma OnlyRow(rows: seq<Row>, a: Row, b: Row)
    requires UniqueSubjects(rows) && a in rows && b in rows && a.subject == b.subject
    ensures a == b
  {
  }

  // ----- any number of callers -----

  /**
   A caller has started, missed its first read, started the statement (`seen` is its snapshot),
   holds an uncommitted insert, must read again, or has finished.
   */
  datatype Phase =
    | Started
    | Missed
    | Reading(seen: Option<Row>)
    | Inserting(seen: Option<Row>)
    | MustReread
    | Returned(id: string)
    | NotFound
    | Failed

  datatype Caller = Caller(id: string, subject: string, phase: Phase)

  datatype System = System(rows: seq<Row>, callers: map<nat, Caller>)

  datatype Action =
    | Arrive(n: nat, id: string, subject: string)
    | FirstRead(n: nat)
    | StartStatement(n: nat)
    | InsertOrConflict(n: nat)
    | Commit(n: nat)
    | Reread(n: nat)
    | GiveUp(n: nat)

  function To(s: System, n: nat, phase: Phase): System
    requires n in s.callers
  {
    s.(callers := s.callers[n := s.callers[n].(phase := phase)])
  }

  predicate OthersInsert(s: System, n: nat, subject: string) {
    exists m :: m in s.callers && m != n && s.callers[m].phase.Inserting? && s.callers[m].subject == subject
  }

  predicate StepBy(s: System, s': System, action: Action) {
    match action
    case Arrive(n, id, subject) => n !in s.callers && s' == s.(callers := s.callers[n := Caller(id, subject, Started)])
    case FirstRead(n) =>
      && n in s.callers && s.callers[n].phase == Started
      && var found := Find(s.rows, s.callers[n].subject);
         s' == To(s, n, if found.Some? then Returned(found.value.id) else Missed)
    case StartStatement(n) =>
      && n in s.callers && s.callers[n].phase == Missed
      && s' == To(s, n, Reading(Find(s.rows, s.callers[n].subject)))
    case InsertOrConflict(n) =>
      // Disabled, that is waiting, while another insert of the subject is uncommitted.
      && n in s.callers && s.callers[n].phase.Reading?
      && var c := s.callers[n];
         && !OthersInsert(s, n, c.subject)
         && s' == To(s, n,
              if Find(s.rows, c.subject) == None then Inserting(c.phase.seen)
              else if c.phase.seen.Some? then Returned(c.phase.seen.value.id)
              else MustReread)
    case Commit(n) =>
      && n in s.callers && s.callers[n].phase.Inserting?
      && var c := s.callers[n];
         s' == To(s, n, Returned(c.id)).(rows := s.rows + [Row(c.id, c.subject)])
    case Reread(n) =>
      && n in s.callers && s.callers[n].phase == MustReread
      && var found := Find(s.rows, s.callers[n].subject);
         s' == To(s, n, if found.Some? then Returned(found.value.id) else NotFound)
    case GiveUp(n) =>
      n in s.callers && !s.callers[n].phase.Returned? && s' == To(s, n, Failed)
  }

  ghost predicate Step(s: System, s': System) {
    exists action :: StepBy(s, s', action)
  }

  /** The table may start with any rows its constraint allows. */
  ghost predicate Initial(s: System) {
    UniqueSubjects(s.rows) && s.callers == map[]
  }

  ghost predicate CallerSound(s: System, c: Caller) {
    match c.phase
    case Reading(seen) => seen.Some? ==> seen.value in s.rows && seen.value.subject == c.subject
    case Inserting(_) => Find(s.rows, c.subject) == None
    case MustReread => Find(s.rows, c.subject).Some?
    case Returned(id) => Row(id, c.subject) in s.rows
    case NotFound => false
    case _ => true
  }

  ghost predicate OneInsert(s: System) {
    forall m, n :: m in s.callers && n in s.callers && s.callers[m].phase.Inserting? && s.callers[n].phase.Inserting? ==>
      s.callers[m].subject != s.callers[n].subject || m == n
  }

  ghost predicate Inv(s: System) {
    && UniqueSubjects(s.rows)
    && OneInsert(s)
    && forall n :: n in s.callers ==> CallerSound(s, s.callers[n])
  }

  lemma {:induction false} FindAppend(rows: seq<Row>, row: Row, subject: string)
    ensures Find(rows + [row], subject)
            == if Find(rows, subject).Some? then Find(rows, subject) else if row.subject == subject then Some(row) else None
  {
    if rows == [] {
      assert [] + [row] == [row];
    } else {
      assert (rows + [row])[1..] == rows[1..] + [row];
      FindAppend(rows[1..], row, subject);
    }
  }

  lemma CommitKeeps(s: System, s': System, n: nat)
    requires Inv(s) && StepBy(s, s', Commit(n))
    ensures Inv(s')
  {
    var c := s.callers[n];
    var row := Row(c.id, c.subject);
    assert CallerSound(s, c);
    AppendUnique(s.rows, row);
    forall m | m in s'.callers ensures CallerSound(s', s'.callers[m]) {
      FindAppend(s.rows, row, s.callers[m].subject);
      assert CallerSound(s, s.callers[m]);
      assert row in s'.rows;
    }
  }

  lemma LocalKeeps(s: System, s': System, action: Action)
    requires Inv(s) && StepBy(s, s', action) && !action.Commit? && !action.Arrive?
    ensures Inv(s')
  {
    assert CallerSound(s, s.callers[action.n]);
    hide Find;
    hide UniqueSubjects;
  }

  lemma StepKeeps(s: System, s': System)
    requires Inv(s) && Step(s, s')
    ensures Inv(s')
  {
    var action :| StepBy(s, s', action);
    match action {
      case Commit(n) => CommitKeeps(s, s', n);
      case Arrive(n, id, subject) =>
      case _ => LocalKeeps(s, s', action);
    }
  }

  ghost predicate Run(states: seq<System>) {
    && states != [] && Initial(states[0])
    && forall i :: 0 <= i < |states| - 1 ==> Step(states[i], states[i + 1])
  }

  lemma {:induction false} RunKeeps(states: seq<System>, n: nat)
    requires Run(states) && n < |states|
    ensures Inv(states[n])
  {
    if n > 0 {
      RunKeeps(states, n - 1);
      StepKeeps(states[n - 1], states[n]);
    }
  }

  /**
   In every interleaving a subject has at most one row, every caller that returned for it returned
   that row's identifier, and no second read after an empty conflict result comes back empty.
   */
  lemma GetOrCreateAgreement(states: seq<System>, i: nat, m: nat, n: nat)
    requires Run(states) && i < |states| && m in states[i].callers && n in states[i].callers
    requires states[i].callers[m].subject == states[i].callers[n].subject
    ensures UniqueSubjects(states[i].rows)
    ensures states[i].callers[m].phase.Returned? && states[i].callers[n].phase.Returned?
            ==> states[i].callers[m].phase.id == states[i].callers[n].phase.id
    ensures states[i].callers[n].phase.Returned? ==>
              Find(states[i].rows, states[i].callers[n].subject)
              == Some(Row(states[i].callers[n].phase.id, states[i].callers[n].subject))
    ensures states[i].callers[n].phase == MustReread ==> Find(states[i].rows, states[i].callers[n].subject).Some?
    ensures states[i].callers[n].phase != NotFound
  {
    RunKeeps(states, i);
    var s := states[i];
    assert CallerSound(s, s.callers[m]) && CallerSound(s, s.callers[n]);
  }

  // ----- one call, with others committing between and during its statements -----

  datatype Error = ReadFailed | StatementFailed | Unresolved

  datatype Fault = NoFault | FirstReadFails | StatementFails | RereadFails

  class UserRepository {
    var rows: seq<Row>

    ghost predicate Valid()
      reads this
    {
      UniqueSubjects(rows)
    }

    constructor ()
      ensures Valid() && rows == []
    {
      rows := [];
    }

    /** Other callers commit inserts; those that conflict do nothing. */
    method Interfere(others: seq<Row>)
      requires Valid()
      modifies this
      ensures Valid() && old(rows) <= rows
      ensures forall r :: r in rows ==> r in old(rows) || r in others
      ensures forall r :: r in others ==> Find(rows, r.subject).Some?
    {
      for i := 0 to |others|
        invariant Valid() && old(rows) <= rows
        invariant forall r :: r in rows ==> r in old(rows) || r in others
        invariant forall j :: 0 <= j < i ==> Find(rows, others[j].subject).Some?
      {
        if Find(rows, others[i].subject) == None {
          AppendUnique(rows, others[i]);
          rows := rows + [others[i]];
        }
      }
    }

    /** `during` are the inserts that commit while the statement waits, after its snapshot was taken. */
    method InsertOrSelect(id: string, subject: string, during: seq<Row>) returns (result: Option<string>)
      requires Valid()
      modifies this
      ensures Valid() && old(rows) <= rows
      ensures forall r :: r in rows ==> r in old(rows) || r in during || r == Row(id, subject)
      ensures result.Some? ==> Row(result.value, subject) in rows
      ensures result.Some? ==>
                result.value == if Find(old(rows), subject).Some? then Find(old(rows), subject).value.id else id
      ensures result == None ==> Find(rows, subject).Some?
      ensures result == None <==> Find(old(rows), subject) == None && exists r :: r in during && r.subject == subject
    {
      var seen := Find(rows, subject);
      Interfere(during);
      if Find(rows, subject) == None {
        AppendUnique(rows, Row(id, subject));
        rows := rows + [Row(id, subject)];
        result := Some(id);
      } else {
        result := if seen.Some? then Some(seen.value.id) else None;
      }
    }

    method ResolveUserByAuthlierSubjectID(
      id: string, subject: string, before: seq<Row>, during: seq<Row>, after: seq<Row>, fault: Fault)
      returns (result: Result<string, Error>)
      requires Valid()
      modifies this
      ensures Valid() && old(rows) <= rows
      ensures forall r :: r in rows ==> r in old(rows) || r in before || r in during || r in after || r == Row(id, subject)
      ensures result.Ok? ==> Find(rows, subject) == Some(Row(result.value, subject))
      ensures fault == NoFault ==> result.Ok?
      ensures result == Err(ReadFailed) <==> fault == FirstReadFails
      ensures result == Err(StatementFailed) <==>
                fault == StatementFails && forall r :: r in old(rows) ==> r.subject != subject
      ensures result == Err(Unresolved) ==> fault == RereadFails
      ensures fault == FirstReadFails ==> rows == old(rows)
      ensures fault == NoFault && (forall r :: r in old(rows) || r in before || r in during ==> r.subject != subject)
              ==> result == Ok(id)
      ensures Find(old(rows), subject).Some? && fault != FirstReadFails ==> result.Ok? && rows == old(rows)
    {
      if fault == FirstReadFails {
        return Err(ReadFailed);
      }
      var existing := Find(rows, subject);
      if existing.Some? {
        return Ok(existing.value.id);
      }
      Interfere(before);
      if fault == StatementFails {
        return Err(StatementFailed);
      }
      var resolved := InsertOrSelect(id, subject, during);
      Interfere(after);
      if resolved == None {
        existing := Find(rows, subject);
        if fault == RereadFails || existing == None {
          return Err(Unresolved);
        }
        return Ok(existing.value.id);
      }
      result := Ok(resolved.value);
      OnlyRow(rows, Find(rows, subject).value, Row(resolved.value, subject));
    }
  }
}
