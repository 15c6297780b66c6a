/**
 The search index when calls are not one at a time. A call that changes a project writes its row, reads it
 back, and only then writes or removes its document; other calls may come between these steps.
 */
module IndexRace {
  import opened Text
  import opened ReadModel

  type Caller = nat

  /** What a call is about to do to the index: store the document of the row it read, or remove it. */
  datatype Repair = Repair(id: Id, document: Option<Document>)

  /** Of a row only the document it is to have matters: `due` has one for every row that is approved. */
  datatype State = State(due: map<Id, Document>, index: map<Id, Document>, held: map<Caller, Repair>)

  /** A write gives a row the document it is to have from now on, or none. */
  datatype Step =
    | Write(id: Id, document: Option<Document>)
    | Load(caller: Caller, id: Id)
    | Apply(caller: Caller)

  const EMPTY := State(map[], map[], map[])

  /** The document a row is to have: none when it is deleted or not approved. */
  function DocumentOf(row: Option<Contract>): Option<Document> {
    if row.Some? && row.value.status.Approved? then Some(ContractToSearch(row.value)) else None
  }

  function At(documents: map<Id, Document>, id: Id): Option<Document> {
    if id in documents then Some(documents[id]) else None
  }

  function Put(documents: map<Id, Document>, id: Id, document: Option<Document>): map<Id, Document> {
    if document.Some? then documents[id := document.value] else documents - {id}
  }

  function Next(s: State, step: Step): State {
    match step
    case Write(id, document) => s.(due := Put(s.due, id, document))
    case Load(caller, id) => s.(held := s.held[caller := Repair(id, At(s.due, id))])
    case Apply(caller) =>
      if caller !in s.held then s
      else
        s.(index := Put(s.index, s.held[caller].id, s.held[caller].document), held := s.held - {caller})
  }

  function After(steps: seq<Step>): State {
    if steps == [] then EMPTY else Next(After(steps[..|steps| - 1]), steps[|steps| - 1])
  }

  // ---------- when the index is right ----------

  /** A document as it counts: but for the time of the last update, which not every write brings to the index. */
  function Shown(document: Option<Document>): Option<Document> {
    if document.None? then None else Some(document.value.(updatedAt := 0))
  }

  function Wanted(s: State, id: Id): Option<Document> {
    Shown(At(s.due, id))
  }

  function Found(s: State, id: Id): Option<Document> {
    Shown(At(s.index, id))
  }

  /** The step is a write after which the index should hold something else of the project. */
  predicate Changes(s: State, step: Step, id: Id) {
    Wanted(Next(s, step), id) != Wanted(s, id)
  }

  predicate Holds(s: State, caller: Caller, id: Id) {
    caller in s.held && s.held[caller].id == id
  }

  /** No call is between reading this row and writing its document. */
  ghost predicate NoneHeld(s: State, id: Id) {
    forall caller :: !Holds(s, caller, id)
  }

  predicate Repairs(s: State, step: Step, id: Id) {
    step.Apply? && Holds(s, step.caller, id)
  }

  /** From the start on, no change falls between a call's reading the row and its writing the document. */
  ghost predicate Undisturbed(start: nat, steps: seq<Step>, id: Id) {
    forall i :: start <= i < |steps| && Changes(After(steps[..i]), steps[i], id) ==> NoneHeld(After(steps[..i]), id)
  }

  /** The last change has not been followed by a repair of the index. */
  predicate Pending(start: nat, steps: seq<Step>, id: Id) {
    |steps| > start
    && var n := |steps| - 1;
       Changes(After(steps[..n]), steps[n], id)
       || (!Repairs(After(steps[..n]), steps[n], id) && Pending(start, steps[..n], id))
  }

  /** What calls are about to store is right, and so is what is stored unless a repair is due. */
  ghost predicate Fresh(s: State, id: Id, pending: bool) {
    && (forall caller :: Holds(s, caller, id) ==> Shown(s.held[caller].document) == Wanted(s, id))
    && (!pending ==> Found(s, id) == Wanted(s, id))
  }

  /** The index is right and no call is about to write to it. */
  ghost predicate Settled(s: State, id: Id) {
    Found(s, id) == Wanted(s, id) && NoneHeld(s, id)
  }

  lemma FreshStep(s: State, step: Step, id: Id, pending: bool)
    requires Fresh(s, id, pending) && (Changes(s, step, id) ==> NoneHeld(s, id))
    ensures Fresh(Next(s, step), id, Changes(s, step, id) || (!Repairs(s, step, id) && pending))
  {
    var t := Next(s, step);
    forall caller | Holds(t, caller, id) ensures Shown(t.held[caller].document) == Wanted(t, id) {
      assert !step.Load? || step.caller != caller ==> Holds(s, caller, id);
    }
  }

  lemma UndisturbedBefore(start: nat, steps: seq<Step>, n: nat, id: Id)
    requires start <= n <= |steps| && Undisturbed(start, steps, id)
    ensures Undisturbed(start, steps[..n], id)
  {
    var before := steps[..n];
    forall i | start <= i < n && Changes(After(before[..i]), before[i], id) ensures NoneHeld(After(before[..i]), id) {
      assert before[..i] == steps[..i];
    }
  }

  /** Undisturbed calls keep the index right, once the last change has been followed by its repair. */
  lemma {:induction false} SettledIsRight(start: nat, steps: seq<Step>, id: Id)
    requires start <= |steps| && Settled(After(steps[..start]), id) && Undisturbed(start, steps, id)
    ensures Fresh(After(steps), id, Pending(start, steps, id))
    decreases |steps|
  {
    if |steps| == start {
      assert steps[..start] == steps;
    } else {
      var n := |steps| - 1;
      assert steps[..n][..start] == steps[..start];
      UndisturbedBefore(start, steps, n, id);
      SettledIsRight(start, steps[..n], id);
      FreshStep(After(steps[..n]), steps[n], id, Pending(start, steps[..n], id));
    }
  }

  lemma AfterOne(steps: seq<Step>, i: nat)
    requires i < |steps|
    ensures After(steps[..i + 1]) == Next(After(steps[..i]), steps[i])
  {
    assert steps[..i + 1][..i] == steps[..i];
  }

  // ---------- the condition is exact ----------

  /** Were the call to write now, the index would be wrong of the project. */
  predicate LeavesWrong(s: State, caller: Caller, id: Id) {
    Holds(s, caller, id) && Found(Next(s, Apply(caller)), id) != Wanted(s, id)
  }

  lemma AppliedFound(s: State, caller: Caller, id: Id)
    requires Holds(s, caller, id)
    ensures Found(Next(s, Apply(caller)), id) == Shown(s.held[caller].document)
  {
  }

  lemma FreshNeverWrong(s: State, id: Id, pending: bool, caller: Caller)
    requires Fresh(s, id, pending)
    ensures !LeavesWrong(s, caller, id)
  {
    if Holds(s, caller, id) {
      AppliedFound(s, caller, id);
    }
  }

  lemma OldIsWrong(s: State, caller: Caller, id: Id)
    requires Holds(s, caller, id) && Shown(s.held[caller].document) != Wanted(s, id)
    ensures LeavesWrong(s, caller, id)
  {
    AppliedFound(s, caller, id);
  }

  lemma ChangeKeepsHeld(s: State, step: Step, caller: Caller, id: Id)
    requires Changes(s, step, id) && Holds(s, caller, id)
    ensures Holds(Next(s, step), caller, id) && Next(s, step).held[caller] == s.held[caller]
  {
  }

  /** A change while a call holds the row makes it wrong to store what the call holds, before or after. */
  lemma DisturbedIsWrong(steps: seq<Step>, i: nat, id: Id)
    requires i < |steps| && Changes(After(steps[..i]), steps[i], id) && !NoneHeld(After(steps[..i]), id)
    ensures exists n, caller :: i <= n <= i + 1 && LeavesWrong(After(steps[..n]), caller, id)
  {
    var s := After(steps[..i]);
    var caller :| Holds(s, caller, id);
    AfterOne(steps, i);
    ChangeKeepsHeld(s, steps[i], caller, id);
    if Shown(s.held[caller].document) == Wanted(s, id) {
      OldIsWrong(After(steps[..i + 1]), caller, id);
    } else {
      OldIsWrong(s, caller, id);
    }
  }

  /** Whenever any call goes on to write its document the index is right, if and only if no call was disturbed. */
  lemma RightExactly(start: nat, steps: seq<Step>, id: Id)
    requires start <= |steps| && Settled(After(steps[..start]), id)
    ensures Undisturbed(start, steps, id) <==>
      forall n, caller :: start <= n <= |steps| ==> !LeavesWrong(After(steps[..n]), caller, id)
  {
    if Undisturbed(start, steps, id) {
      forall n, caller | start <= n <= |steps| ensures !LeavesWrong(After(steps[..n]), caller, id) {
        assert steps[..n][..start] == steps[..start];
        UndisturbedBefore(start, steps, n, id);
        SettledIsRight(start, steps[..n], id);
        FreshNeverWrong(After(steps[..n]), id, Pending(start, steps[..n], id), caller);
      }
    } else {
      var i :| start <= i < |steps| && Changes(After(steps[..i]), steps[i], id) && !NoneHeld(After(steps[..i]), id);
      DisturbedIsWrong(steps, i, id);
    }
  }

  // ---------- such a run ----------

  lemma AfterMore(steps: seq<Step>, step: Step)
    ensures After(steps + [step]) == Next(After(steps), step)
  {
    assert (steps + [step])[..|steps|] == steps;
  }

  /** One call approves the project, another archives it and removes its document, then the first stores it. */
  function Crossing(id: Id, approved: Contract, archived: Contract, first: Caller, second: Caller): seq<Step> {
    [Write(id, DocumentOf(Some(approved)))] + [Load(first, id)] + [Write(id, DocumentOf(Some(archived)))]
    + [Load(second, id)] + [Apply(second)] + [Apply(first)]
  }

  lemma Crossed(id: Id, document: Document, first: Caller, second: Caller)
    requires first != second
    ensures After([Write(id, Some(document))] + [Load(first, id)] + [Write(id, None)] + [Load(second, id)]
                  + [Apply(second)] + [Apply(first)])
         == State(map[], map[id := document], map[])
  {
    var s1 := [Write(id, Some(document))];
    var s2 := s1 + [Load(first, id)];
    var s3 := s2 + [Write(id, None)];
    var s4 := s3 + [Load(second, id)];
    AfterMore([], Write(id, Some(document)));
    assert [] + s1 == s1;
    AfterMore(s1, Load(first, id));
    assert After(s2) == State(map[id := document], map[], map[first := Repair(id, Some(document))]);
    AfterMore(s2, Write(id, None));
    AfterMore(s3, Load(second, id));
    AfterMore(s4, Apply(second));
    assert After(s4 + [Apply(second)]) == State(map[], map[], map[first := Repair(id, Some(document))]);
    AfterMore(s4 + [Apply(second)], Apply(first));
  }

  /** An archived project stays in the index, though every call has done its repair. */
  lemma ArchivedStaysIndexed(id: Id, approved: Contract, archived: Contract, first: Caller, second: Caller)
    requires approved.status.Approved? && !archived.status.Approved? && first != second
    ensures After(Crossing(id, approved, archived, first, second))
         == State(map[], map[id := ContractToSearch(approved)], map[])
  {
    Crossed(id, ContractToSearch(approved), first, second);
  }
}
