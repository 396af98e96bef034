/** The plugin announce table: fixed, insert-only, probed a bounded number of slots, shared by
    any number of threads one atomic access at a time
    (include/sub0log/abi_host.hpp:222-268, include/sub0log/abi_host.hpp:281-295). */
module Announce {
  const SLOTS := 4096
  const PROBE_LIMIT := 32

  /** One slot; 0 means "never claimed" and "never recorded". */
  datatype Slot = Slot(id: nat, generation: nat)

  /** What a thread is doing with the table. `sure` notes whether the id had been recorded
      before a lookup began. */
  datatype Pc =
    | Idle
    | Claiming(id: nat, generation: nat, i: nat)   // record: about to try probe i
    | Storing(id: nat, generation: nat, slot: nat) // record: slot found, about to store
    | Seeking(id: nat, i: nat, sure: bool)         // lookup: about to read probe i
    | Reading(id: nat, slot: nat, sure: bool)      // lookup: key matched, about to read

  datatype Answer = Answer(id: nat, generation: nat, sure: bool)

  datatype Table = Table(slots: seq<Slot>, pcs: seq<Pc>, recorded: set<(nat, nat)>, answers: seq<Answer>, exhausted: nat)

  datatype Step =
    | Record(t: nat, id: nat, generation: nat)
    | Lookup(t: nat, id: nat)
    | Go(t: nat)

  /** Where probe i for an id lands; how the first one is chosen does not matter. */
  function Probe(start: nat -> nat, id: nat, i: nat): (slot: nat)
    ensures slot < SLOTS
  {
    (start(id) + i) % SLOTS
  }

  predicate WasRecorded(recorded: set<(nat, nat)>, id: nat) { exists p :: p in recorded && p.0 == id }

  predicate CanStep(w: Table, st: Step) {
    && st.t < |w.pcs|
    && match st
       case Record(t, id, generation) => w.pcs[t].Idle? && id != 0 && generation != 0
       case Lookup(t, id) => w.pcs[t].Idle? && id != 0
       case Go(t) => !w.pcs[t].Idle?
  }

  /** One probe of `record`: a compare-and-exchange from 0, which also tells who is there. */
  function ClaimProbe(start: nat -> nat, w: Table, t: nat, id: nat, generation: nat, i: nat): Table
    requires t < |w.pcs| && |w.slots| == SLOTS
  {
    var slot := Probe(start, id, i);
    if w.slots[slot].id == 0 then
      w.(slots := w.slots[slot := w.slots[slot].(id := id)], pcs := w.pcs[t := Storing(id, generation, slot)])
    else if w.slots[slot].id == id then w.(pcs := w.pcs[t := Storing(id, generation, slot)])
    else if i + 1 < PROBE_LIMIT then w.(pcs := w.pcs[t := Claiming(id, generation, i + 1)])
    else w.(pcs := w.pcs[t := Idle], exhausted := w.exhausted + 1)
  }

  /** One probe of `generationFor`. */
  function SeekProbe(start: nat -> nat, w: Table, t: nat, id: nat, i: nat, sure: bool): Table
    requires t < |w.pcs| && |w.slots| == SLOTS
  {
    var slot := Probe(start, id, i);
    if w.slots[slot].id == id then w.(pcs := w.pcs[t := Reading(id, slot, sure)])
    else if w.slots[slot].id == 0 then w.(pcs := w.pcs[t := Idle], answers := w.answers + [Answer(id, 0, sure)])
    else if i + 1 < PROBE_LIMIT then w.(pcs := w.pcs[t := Seeking(id, i + 1, sure)])
    else w.(pcs := w.pcs[t := Idle], answers := w.answers + [Answer(id, 0, sure)], exhausted := w.exhausted + 1)
  }

  function Stepped(start: nat -> nat, w: Table, st: Step): Table
    requires CanStep(w, st) && |w.slots| == SLOTS
  {
    match st
    case Record(t, id, generation) => w.(pcs := w.pcs[t := Claiming(id, generation, 0)])
    case Lookup(t, id) => w.(pcs := w.pcs[t := Seeking(id, 0, WasRecorded(w.recorded, id))])
    case Go(t) =>
      match w.pcs[t]
      case Claiming(id, generation, i) => ClaimProbe(start, w, t, id, generation, i)
      case Storing(id, generation, slot) =>
        if slot >= SLOTS then w
        else w.(slots := w.slots[slot := w.slots[slot].(generation := generation)], pcs := w.pcs[t := Idle],
                recorded := w.recorded + {(id, generation)})
      case Seeking(id, i, sure) => SeekProbe(start, w, t, id, i, sure)
      case Reading(id, slot, sure) =>
        if slot >= SLOTS then w
        else w.(pcs := w.pcs[t := Idle], answers := w.answers + [Answer(id, w.slots[slot].generation, sure)])
      case Idle => w
  }

  // --------------------------------------------------------------- the invariant

  /** Every probe before i is taken by some other id. */
  ghost predicate Passed(start: nat -> nat, slots: seq<Slot>, id: nat, i: nat)
    requires |slots| == SLOTS
  {
    forall j :: 0 <= j < i ==> slots[Probe(start, id, j)].id != 0 && slots[Probe(start, id, j)].id != id
  }

  /** The id sits at one of its probes, the first that was not another's. */
  ghost predicate Placed(start: nat -> nat, slots: seq<Slot>, slot: nat)
    requires |slots| == SLOTS && slot < SLOTS
  {
    slots[slot].id != 0 ==>
      exists j :: 0 <= j < PROBE_LIMIT && slot == Probe(start, slots[slot].id, j) && Passed(start, slots, slots[slot].id, j)
  }

  /** Some slot holds this id with a recorded generation. */
  ghost predicate Held(slots: seq<Slot>, id: nat) {
    exists s :: 0 <= s < |slots| && slots[s].id == id && slots[s].generation != 0
  }

  ghost predicate PcOk(start: nat -> nat, slots: seq<Slot>, pc: Pc)
    requires |slots| == SLOTS
  {
    match pc
    case Idle => true
    case Claiming(id, generation, i) => id != 0 && generation != 0 && i < PROBE_LIMIT && Passed(start, slots, id, i)
    case Storing(id, generation, slot) => id != 0 && generation != 0 && slot < SLOTS && slots[slot].id == id
    case Seeking(id, i, sure) => id != 0 && i < PROBE_LIMIT && Passed(start, slots, id, i) && (sure ==> Held(slots, id))
    case Reading(id, slot, sure) =>
      id != 0 && slot < SLOTS && slots[slot].id == id && (sure ==> slots[slot].generation != 0)
  }

  /** A lookup answers 0 or a generation recorded for that same id; never 0 for an id whose
      record had finished before the lookup began. */
  predicate AnswerOk(recorded: set<(nat, nat)>, a: Answer) {
    (a.generation == 0 || (a.id, a.generation) in recorded) && (a.sure ==> a.generation != 0)
  }

  ghost predicate TableOk(start: nat -> nat, w: Table) {
    && |w.slots| == SLOTS
    && (forall s :: 0 <= s < SLOTS ==> Placed(start, w.slots, s))
    && (forall s :: 0 <= s < SLOTS && w.slots[s].generation != 0 ==>
          w.slots[s].id != 0 && (w.slots[s].id, w.slots[s].generation) in w.recorded)
    && (forall p :: p in w.recorded ==> Held(w.slots, p.0))
    && (forall t :: 0 <= t < |w.pcs| ==> PcOk(start, w.slots, w.pcs[t]))
    && (forall k :: 0 <= k < |w.answers| ==> AnswerOk(w.recorded, w.answers[k]))
  }

  /** No id ever occupies two slots. */
  lemma OneSlotEach(start: nat -> nat, w: Table, a: nat, b: nat)
    requires TableOk(start, w) && a < SLOTS && b < SLOTS && w.slots[a].id == w.slots[b].id != 0
    ensures a == b
  {
    assert Placed(start, w.slots, a) && Placed(start, w.slots, b);
    var id := w.slots[a].id;
    var i :| 0 <= i < PROBE_LIMIT && a == Probe(start, id, i) && Passed(start, w.slots, id, i);
    var j :| 0 <= j < PROBE_LIMIT && b == Probe(start, id, j) && Passed(start, w.slots, id, j);
  }

  // -------------------------------------------------------------- every step

  /** An owner never changes. */
  ghost predicate OwnersKept(a: seq<Slot>, b: seq<Slot>) {
    |a| == |b| == SLOTS && forall s :: 0 <= s < SLOTS && a[s].id != 0 ==> b[s].id == a[s].id
  }

  /** Slots only fill up: an owner never changes, a recorded slot stays recorded. */
  ghost predicate SlotsGrow(a: seq<Slot>, b: seq<Slot>) {
    OwnersKept(a, b) && forall s :: 0 <= s < SLOTS && a[s].generation != 0 ==> b[s].generation != 0
  }

  lemma PassedGrows(start: nat -> nat, a: seq<Slot>, b: seq<Slot>, id: nat, i: nat)
    requires OwnersKept(a, b) && Passed(start, a, id, i)
    ensures Passed(start, b, id, i)
  {}

  lemma HeldGrows(a: seq<Slot>, b: seq<Slot>, id: nat)
    requires SlotsGrow(a, b) && Held(a, id) && id != 0
    ensures Held(b, id)
  {
    var s :| 0 <= s < |a| && a[s].id == id && a[s].generation != 0;
    assert b[s].id == id && b[s].generation != 0;
  }

  lemma PcGrows(start: nat -> nat, a: seq<Slot>, b: seq<Slot>, pc: Pc)
    requires SlotsGrow(a, b) && PcOk(start, a, pc)
    ensures PcOk(start, b, pc)
  {
    match pc
    case Claiming(id, _, i) => PassedGrows(start, a, b, id, i);
    case Seeking(id, i, sure) =>
      PassedGrows(start, a, b, id, i);
      if sure {
        HeldGrows(a, b, id);
      }
    case _ =>
  }

  lemma PlacedGrows(start: nat -> nat, a: seq<Slot>, b: seq<Slot>, s: nat)
    requires OwnersKept(a, b) && s < SLOTS && a[s].id != 0 && Placed(start, a, s)
    ensures Placed(start, b, s)
  {
    var id := a[s].id;
    var j :| 0 <= j < PROBE_LIMIT && s == Probe(start, id, j) && Passed(start, a, id, j);
    PassedGrows(start, a, b, id, j);
  }

  /** A lookup that is sure stands no further than where its id sits. */
  lemma SureIsAhead(start: nat -> nat, slots: seq<Slot>, id: nat, i: nat) returns (j: nat)
    requires |slots| == SLOTS && id != 0 && Passed(start, slots, id, i) && Held(slots, id)
    requires forall s :: 0 <= s < SLOTS ==> Placed(start, slots, s)
    ensures i <= j < PROBE_LIMIT && slots[Probe(start, id, j)].id == id && slots[Probe(start, id, j)].generation != 0
    ensures Passed(start, slots, id, j)
  {
    var s :| 0 <= s < |slots| && slots[s].id == id && slots[s].generation != 0;
    assert Placed(start, slots, s);
    j :| 0 <= j < PROBE_LIMIT && s == Probe(start, id, j) && Passed(start, slots, id, j);
  }

  /** What one probe of a lookup leads to. */
  lemma SeekKeeps(start: nat -> nat, w: Table, t: nat)
    requires TableOk(start, w) && t < |w.pcs| && w.pcs[t].Seeking?
    ensures var Seeking(id, i, sure) := w.pcs[t]; TableOk(start, SeekProbe(start, w, t, id, i, sure))
  {
    var Seeking(id, i, sure) := w.pcs[t];
    assert PcOk(start, w.slots, w.pcs[t]);
    var slot := Probe(start, id, i);
    if sure {
      var j := SureIsAhead(start, w.slots, id, i);
      if w.slots[slot].id == id {
        OneSlotEach(start, w, slot, Probe(start, id, j));
      }
    }
  }

  lemma ClaimKeeps(start: nat -> nat, w: Table, t: nat)
    requires TableOk(start, w) && t < |w.pcs| && w.pcs[t].Claiming?
    ensures var Claiming(id, generation, i) := w.pcs[t];
            var w' := ClaimProbe(start, w, t, id, generation, i);
            TableOk(start, w') && SlotsGrow(w.slots, w'.slots)
  {
    var Claiming(id, generation, i) := w.pcs[t];
    assert PcOk(start, w.slots, w.pcs[t]);
    var slot := Probe(start, id, i);
    var w' := ClaimProbe(start, w, t, id, generation, i);
    if w.slots[slot].id == 0 {
      assert SlotsGrow(w.slots, w'.slots);
      forall u | 0 <= u < |w.pcs|
        ensures PcOk(start, w'.slots, w'.pcs[u])
      {
        PcGrows(start, w.slots, w'.slots, w.pcs[u]);
      }
      forall s | 0 <= s < SLOTS
        ensures Placed(start, w'.slots, s)
      {
        if s == slot {
          PassedGrows(start, w.slots, w'.slots, id, i);
        } else if w.slots[s].id != 0 {
          PlacedGrows(start, w.slots, w'.slots, s);
        }
      }
      forall p | p in w.recorded
        ensures Held(w'.slots, p.0)
      {
        HeldStays(w.slots, w'.slots, p.0);
      }
    }
  }

  lemma HeldStays(a: seq<Slot>, b: seq<Slot>, id: nat)
    requires SlotsGrow(a, b) && Held(a, id)
    requires forall s :: 0 <= s < SLOTS && a[s].generation != 0 ==> a[s].id != 0
    ensures Held(b, id)
  {
    var s :| 0 <= s < |a| && a[s].id == id && a[s].generation != 0;
    assert b[s].id == id && b[s].generation != 0;
  }

  lemma StoreKeeps(start: nat -> nat, w: Table, w': Table, t: nat)
    requires TableOk(start, w) && t < |w.pcs| && w.pcs[t].Storing? && w' == Stepped(start, w, Go(t))
    ensures TableOk(start, w') && SlotsGrow(w.slots, w'.slots)
  {
    var Storing(id, generation, slot) := w.pcs[t];
    assert PcOk(start, w.slots, w.pcs[t]);
    assert SlotsGrow(w.slots, w'.slots);
    forall u | 0 <= u < |w.pcs|
      ensures PcOk(start, w'.slots, w'.pcs[u])
    {
      PcGrows(start, w.slots, w'.slots, w.pcs[u]);
    }
    forall s | 0 <= s < SLOTS
      ensures Placed(start, w'.slots, s)
    {
      if w.slots[s].id != 0 {
        PlacedGrows(start, w.slots, w'.slots, s);
      }
    }
    assert w'.slots[slot].id == id && w'.slots[slot].generation != 0;
    forall p | p in w'.recorded
      ensures Held(w'.slots, p.0)
    {
      if p in w.recorded {
        HeldStays(w.slots, w'.slots, p.0);
      }
    }
  }

  lemma ReadKeeps(start: nat -> nat, w: Table, w': Table, t: nat)
    requires TableOk(start, w) && t < |w.pcs| && w.pcs[t].Reading? && w' == Stepped(start, w, Go(t))
    ensures TableOk(start, w')
  {
    assert PcOk(start, w.slots, w.pcs[t]);
  }

  lemma BeginKeeps(start: nat -> nat, w: Table, st: Step)
    requires TableOk(start, w) && CanStep(w, st) && !st.Go?
    ensures TableOk(start, Stepped(start, w, st))
  {
    if st.Lookup? && WasRecorded(w.recorded, st.id) {
      var p :| p in w.recorded && p.0 == st.id;
      assert Held(w.slots, st.id);
    }
  }

  lemma StepKeeps(start: nat -> nat, w: Table, st: Step)
    requires TableOk(start, w) && CanStep(w, st)
    ensures var w' := Stepped(start, w, st); TableOk(start, w') && SlotsGrow(w.slots, w'.slots)
  {
    if !st.Go? {
      BeginKeeps(start, w, st);
    } else {
      match w.pcs[st.t]
      case Claiming(_, _, _) => ClaimKeeps(start, w, st.t);
      case Storing(_, _, _) => StoreKeeps(start, w, Stepped(start, w, st), st.t);
      case Seeking(_, _, _) => SeekKeeps(start, w, st.t);
      case Reading(_, _, _) => ReadKeeps(start, w, Stepped(start, w, st), st.t);
    }
  }

  ghost predicate TableRun(start: nat -> nat, ws: seq<Table>, steps: seq<Step>) {
    && |ws| == |steps| + 1 && |ws[0].slots| == SLOTS
    && (forall s :: 0 <= s < SLOTS ==> ws[0].slots[s] == Slot(0, 0))
    && (forall t :: 0 <= t < |ws[0].pcs| ==> ws[0].pcs[t].Idle?)
    && ws[0].recorded == {} && ws[0].answers == [] && ws[0].exhausted == 0
    && forall i :: 0 <= i < |steps| ==>
         |ws[i].slots| == SLOTS && CanStep(ws[i], steps[i]) && ws[i + 1] == Stepped(start, ws[i], steps[i])
  }

  /** In every interleaving: one slot per id, every answer safe, every recorded id found. */
  lemma {:induction false} TableIsSafe(start: nat -> nat, ws: seq<Table>, steps: seq<Step>, n: nat)
    requires TableRun(start, ws, steps) && n < |ws|
    ensures TableOk(start, ws[n])
    decreases n
  {
    if n > 0 {
      TableIsSafe(start, ws, steps, n - 1);
      StepKeeps(start, ws[n - 1], steps[n - 1]);
    } else {
      assert forall s :: 0 <= s < SLOTS ==> ws[0].slots[s].id == 0;
    }
  }

  /** A slot, once owned, keeps its owner to the end of the run. */
  lemma {:induction false} OwnersNeverChange(start: nat -> nat, ws: seq<Table>, steps: seq<Step>, m: nat, n: nat)
    requires TableRun(start, ws, steps) && m <= n < |ws|
    ensures |ws[m].slots| == SLOTS && SlotsGrow(ws[m].slots, ws[n].slots)
    decreases n - m
  {
    hide Stepped, CanStep, PcOk, Placed;
    TableIsSafe(start, ws, steps, m);
    if m < n {
      OwnersNeverChange(start, ws, steps, m, n - 1);
      TableIsSafe(start, ws, steps, n - 1);
      StepKeeps(start, ws[n - 1], steps[n - 1]);
    }
  }

  // ----------------------------------------------------- one caller at a time

  /** The table as a map: what is recorded for an id, 0 if nothing is. */
  ghost function GenerationIn(slots: seq<Slot>, id: nat): nat {
    if exists s :: 0 <= s < |slots| && slots[s].id == id then
      var s :| 0 <= s < |slots| && slots[s].id == id;
      slots[s].generation
    else 0
  }

  ghost predicate AllPlaced(start: nat -> nat, slots: seq<Slot>) {
    |slots| == SLOTS && forall s :: 0 <= s < SLOTS ==> Placed(start, slots, s)
  }

  lemma SlotIsGeneration(start: nat -> nat, slots: seq<Slot>, s: nat)
    requires AllPlaced(start, slots) && s < SLOTS && slots[s].id != 0
    ensures GenerationIn(slots, slots[s].id) == slots[s].generation
  {
    var id := slots[s].id;
    var r :| 0 <= r < |slots| && slots[r].id == id && GenerationIn(slots, id) == slots[r].generation;
    assert Placed(start, slots, r) && Placed(start, slots, s);
    var i :| 0 <= i < PROBE_LIMIT && r == Probe(start, id, i) && Passed(start, slots, id, i);
    var j :| 0 <= j < PROBE_LIMIT && s == Probe(start, id, j) && Passed(start, slots, id, j);
  }

  /** The probe found its id absent, or ran out: nothing is recorded under it. */
  lemma AbsentIsZero(start: nat -> nat, slots: seq<Slot>, id: nat, i: nat)
    requires AllPlaced(start, slots) && id != 0 && i <= PROBE_LIMIT && Passed(start, slots, id, i)
    requires i < PROBE_LIMIT ==> slots[Probe(start, id, i)].id == 0
    ensures GenerationIn(slots, id) == 0
  {
    forall s | 0 <= s < SLOTS
      ensures slots[s].id != id
    {
      assert Placed(start, slots, s);
    }
  }

  class SiteAnnounceTable {
    const start: nat -> nat
    const slots: array<Slot>
    var exhausted: nat

    ghost predicate Valid()
      reads this, slots
    {
      AllPlaced(start, slots[..])
    }

    constructor (start: nat -> nat)
      ensures Valid() && forall id :: id != 0 ==> GenerationIn(slots[..], id) == 0
      ensures fresh(slots)
    {
      this.start := start;
      slots := new Slot[SLOTS](_ => Slot(0, 0));
      exhausted := 0;
    }

    /** The lookup is the map's. */
    method GenerationFor(id: nat) returns (generation: nat)
      requires Valid() && id != 0
      modifies this`exhausted
      ensures Valid() && generation == GenerationIn(slots[..], id)
    {
      var i := 0;
      while i < PROBE_LIMIT
        invariant 0 <= i <= PROBE_LIMIT && Passed(start, slots[..], id, i)
      {
        var slot := Probe(start, id, i);
        var key := slots[slot].id;
        if key == id {
          SlotIsGeneration(start, slots[..], slot);
          return slots[slot].generation;
        }
        if key == 0 {
          AbsentIsZero(start, slots[..], id, i);
          return 0;
        }
        i := i + 1;
      }
      exhausted := exhausted + 1;
      AbsentIsZero(start, slots[..], id, i);
      return 0;
    }

    /** Recording updates that id alone, and succeeds exactly when one of its probes is free or
        its own; otherwise it changes nothing but the count of exhausted searches. */
    method Record(id: nat, generation: nat) returns (ok: bool)
      requires Valid() && id != 0
      modifies this`exhausted, slots
      ensures Valid()
      ensures ok <==> HasRoom(start, old(slots[..]), id)
      ensures ok ==> OnlyUpdates(old(slots[..]), slots[..], id, generation)
      ensures !ok ==> slots[..] == old(slots[..])
      ensures exhausted == old(exhausted) + if ok then 0 else 1
    {
      var i := 0;
      while i < PROBE_LIMIT
        invariant 0 <= i <= PROBE_LIMIT && Passed(start, slots[..], id, i)
        invariant Valid() && slots[..] == old(slots[..]) && exhausted == old(exhausted)
      {
        var slot := Probe(start, id, i);
        if slots[slot].id == 0 || slots[slot].id == id {
          slots[slot] := Slot(id, generation);
          Recorded(start, old(slots[..]), slots[..], id, generation, i);
          return true;
        }
        i := i + 1;
      }
      exhausted := exhausted + 1;
      return false;
    }
  }

  /** One of the id's probes is unclaimed or its own. */
  ghost predicate HasRoom(start: nat -> nat, slots: seq<Slot>, id: nat)
    requires |slots| == SLOTS
  {
    exists j :: 0 <= j < PROBE_LIMIT && (slots[Probe(start, id, j)].id == 0 || slots[Probe(start, id, j)].id == id)
  }

  /** Read as a map, the table answers this generation for the id, and for every other id what
      it answered before; no slot but the id's own has changed. */
  ghost predicate OnlyUpdates(a: seq<Slot>, b: seq<Slot>, id: nat, generation: nat) {
    && |a| == |b| && GenerationIn(b, id) == generation
    && (forall other :: other != 0 && other != id ==> GenerationIn(b, other) == GenerationIn(a, other))
    && (forall s :: 0 <= s < |a| && b[s] != a[s] ==> b[s].id == id && a[s].id in {0, id})
  }

  lemma Recorded(start: nat -> nat, a: seq<Slot>, b: seq<Slot>, id: nat, generation: nat, i: nat)
    requires AllPlaced(start, a) && id != 0 && i < PROBE_LIMIT && Passed(start, a, id, i)
    requires a[Probe(start, id, i)].id in {0, id} && b == a[Probe(start, id, i) := Slot(id, generation)]
    ensures AllPlaced(start, b) && OnlyUpdates(a, b, id, generation) && HasRoom(start, a, id)
  {
    var slot := Probe(start, id, i);
    PlacedAfter(start, a, b, id, generation, i);
    SlotIsGeneration(start, b, slot);
    forall other | other != 0 && other != id
      ensures GenerationIn(b, other) == GenerationIn(a, other)
    {
      SameForOthers(start, a, b, slot, other);
    }
  }

  lemma PlacedAfter(start: nat -> nat, a: seq<Slot>, b: seq<Slot>, id: nat, generation: nat, i: nat)
    requires AllPlaced(start, a) && id != 0 && i < PROBE_LIMIT && Passed(start, a, id, i)
    requires a[Probe(start, id, i)].id in {0, id} && b == a[Probe(start, id, i) := Slot(id, generation)]
    ensures AllPlaced(start, b)
  {
    var slot := Probe(start, id, i);
    assert OwnersKept(a, b);
    PassedGrows(start, a, b, id, i);
    forall s | 0 <= s < SLOTS
      ensures Placed(start, b, s)
    {
      if s != slot && a[s].id != 0 {
        assert Placed(start, a, s);
        PlacedGrows(start, a, b, s);
      }
    }
  }

  /** An id whose slot did not change is answered as before. */
  lemma SameForOthers(start: nat -> nat, a: seq<Slot>, b: seq<Slot>, slot: nat, other: nat)
    requires AllPlaced(start, a) && AllPlaced(start, b) && slot < SLOTS && other != 0
    requires a[slot].id != other && b[slot].id != other && forall s :: 0 <= s < SLOTS && s != slot ==> b[s] == a[s]
    ensures GenerationIn(b, other) == GenerationIn(a, other)
  {
    if s :| 0 <= s < SLOTS && a[s].id == other {
      SlotIsGeneration(start, a, s);
      SlotIsGeneration(start, b, s);
    }
  }

  // ------------------------------------------------ any interleaving, as a map

  /** The table answers as this map does. */
  ghost predicate Models(m: map<nat, nat>, slots: seq<Slot>) {
    forall id :: id != 0 ==> GenerationIn(slots, id) == if id in m then m[id] else 0
  }

  /** What a step does to the map: only the store that ends a `record` changes it. */
  function MapAfter(w: Table, st: Step, m: map<nat, nat>): map<nat, nat> {
    if st.Go? && st.t < |w.pcs| && w.pcs[st.t].Storing? then m[w.pcs[st.t].id := w.pcs[st.t].generation] else m
  }

  /** Taking a slot for an id nobody has recorded is not yet an answer. */
  lemma ClaimIsSilent(start: nat -> nat, a: seq<Slot>, b: seq<Slot>, slot: nat, id: nat)
    requires AllPlaced(start, a) && AllPlaced(start, b) && slot < SLOTS && id != 0 && a[slot] == Slot(0, 0)
    requires b == a[slot := Slot(id, 0)] && forall s :: 0 <= s < SLOTS ==> a[s].id != id
    ensures forall other :: other != 0 ==> GenerationIn(b, other) == GenerationIn(a, other)
  {
    forall other | other != 0
      ensures GenerationIn(b, other) == GenerationIn(a, other)
    {
      if other == id {
        SlotIsGeneration(start, b, slot);
      } else {
        SameForOthers(start, a, b, slot, other);
      }
    }
  }

  lemma StoreUpdates(start: nat -> nat, a: seq<Slot>, b: seq<Slot>, slot: nat, id: nat, generation: nat)
    requires AllPlaced(start, a) && AllPlaced(start, b) && slot < SLOTS && id != 0 && a[slot].id == id
    requires b == a[slot := Slot(id, generation)]
    ensures GenerationIn(b, id) == generation
    ensures forall other :: other != 0 && other != id ==> GenerationIn(b, other) == GenerationIn(a, other)
  {
    SlotIsGeneration(start, b, slot);
    forall other | other != 0 && other != id
      ensures GenerationIn(b, other) == GenerationIn(a, other)
    {
      SameForOthers(start, a, b, slot, other);
    }
  }

  /** A free slot at an id's next probe means the id has no slot at all. */
  lemma FreeMeansAbsent(start: nat -> nat, slots: seq<Slot>, id: nat, i: nat)
    requires AllPlaced(start, slots) && id != 0 && i < PROBE_LIMIT && Passed(start, slots, id, i)
    requires slots[Probe(start, id, i)].id == 0
    ensures forall s :: 0 <= s < SLOTS ==> slots[s].id != id
  {
    forall s | 0 <= s < SLOTS
      ensures slots[s].id != id
    {
      assert Placed(start, slots, s);
    }
  }

  /** The answers of a later state are those of an earlier one, and at most one more, which is
      the map's or 0. */
  ghost predicate AnswersBy(m: map<nat, nat>, before: seq<Answer>, after: seq<Answer>) {
    after == before
    || exists a :: after == before + [a] && (a.generation == 0 || (a.id in m && m[a.id] == a.generation))
  }

  lemma ReadIsTheMap(start: nat -> nat, slots: seq<Slot>, slot: nat, m: map<nat, nat>, before: seq<Answer>, a: Answer)
    requires AllPlaced(start, slots) && Models(m, slots) && slot < SLOTS && slots[slot].id == a.id != 0
    requires a.generation == slots[slot].generation
    ensures AnswersBy(m, before, before + [a])
  {
    hide AllPlaced, GenerationIn;
    SlotIsGeneration(start, slots, slot);
  }

  lemma ZeroIsSafe(m: map<nat, nat>, before: seq<Answer>, a: Answer)
    requires a.generation == 0
    ensures AnswersBy(m, before, before + [a])
  {}

  lemma StoreIsTheMap(start: nat -> nat, a: seq<Slot>, b: seq<Slot>, slot: nat, id: nat, generation: nat, m: map<nat, nat>)
    requires AllPlaced(start, a) && AllPlaced(start, b) && slot < SLOTS && id != 0 && a[slot].id == id
    requires b == a[slot := Slot(id, generation)] && Models(m, a)
    ensures Models(m[id := generation], b)
  {
    hide AllPlaced, GenerationIn;
    StoreUpdates(start, a, b, slot, id, generation);
  }

  /** One step of any thread, seen as the map: it leaves the map alone or is one update of it,
      and an answer it gives is the map's, or 0. */
  lemma StepIsTheMap(start: nat -> nat, w: Table, st: Step, m: map<nat, nat>)
    requires TableOk(start, w) && CanStep(w, st) && Models(m, w.slots)
    ensures var w' := Stepped(start, w, st);
            Models(MapAfter(w, st, m), w'.slots) && AnswersBy(m, w.answers, w'.answers)
  {
    hide TableOk, AllPlaced, GenerationIn, Passed, SlotsGrow, Models, WasRecorded, Held;
    AllPlacedIn(start, w);
    var w' := Stepped(start, w, st);
    StepKeeps(start, w, st);
    AllPlacedIn(start, w');
    if st.Go? {
      PcIsOk(start, w, st.t);
      match w.pcs[st.t]
      case Claiming(id, generation, i) =>
        ProbeIsSilent(start, w, w'.slots, id, generation, i);
        SameModel(m, w.slots, w'.slots);
      case Storing(id, generation, slot) => StoreIsTheMap(start, w.slots, w'.slots, slot, id, generation, m);
      case Seeking(id, i, sure) =>
        if w'.answers != w.answers {
          ZeroIsSafe(m, w.answers, Answer(id, 0, sure));
        }
      case Reading(id, slot, sure) =>
        ReadIsTheMap(start, w.slots, slot, m, w.answers, Answer(id, w.slots[slot].generation, sure));
    }
  }

  lemma PcIsOk(start: nat -> nat, w: Table, t: nat)
    requires TableOk(start, w) && t < |w.pcs|
    ensures PcOk(start, w.slots, w.pcs[t])
  {
    hide PcOk, Placed, Held;
  }

  lemma SameModel(m: map<nat, nat>, a: seq<Slot>, b: seq<Slot>)
    requires Models(m, a) && forall other :: other != 0 ==> GenerationIn(b, other) == GenerationIn(a, other)
    ensures Models(m, b)
  {
    hide GenerationIn;
  }

  lemma AllPlacedIn(start: nat -> nat, w: Table)
    requires TableOk(start, w)
    ensures |w.slots| == SLOTS && AllPlaced(start, w.slots)
    ensures forall s :: 0 <= s < SLOTS && w.slots[s].id == 0 ==> w.slots[s] == Slot(0, 0)
  {
    hide Placed, PcOk, Held;
  }

  /** A probe of `record`, whether or not it takes the slot, changes no answer. */
  lemma ProbeIsSilent(start: nat -> nat, w: Table, slots': seq<Slot>, id: nat, generation: nat, i: nat)
    requires AllPlaced(start, w.slots) && AllPlaced(start, slots') && id != 0 && i < PROBE_LIMIT && Passed(start, w.slots, id, i)
    requires forall s :: 0 <= s < SLOTS && w.slots[s].id == 0 ==> w.slots[s] == Slot(0, 0)
    requires var slot := Probe(start, id, i);
             slots' == if w.slots[slot].id == 0 then w.slots[slot := w.slots[slot].(id := id)] else w.slots
    ensures forall other :: other != 0 ==> GenerationIn(slots', other) == GenerationIn(w.slots, other)
  {
    hide GenerationIn, Placed;
    var slot := Probe(start, id, i);
    if w.slots[slot].id == 0 {
      FreeMeansAbsent(start, w.slots, id, i);
      ClaimIsSilent(start, w.slots, slots', slot, id);
    }
  }

  /** The map after n steps of a run. */
  function MapAt(ws: seq<Table>, steps: seq<Step>, n: nat): map<nat, nat>
    requires n <= |steps| < |ws|
  {
    if n == 0 then map[] else MapAfter(ws[n - 1], steps[n - 1], MapAt(ws, steps, n - 1))
  }

  /** In every interleaving the table is a map to its callers: after every step it answers as
      the map of finished records does. */
  lemma {:induction false} TableIsAMap(start: nat -> nat, ws: seq<Table>, steps: seq<Step>, n: nat)
    requires TableRun(start, ws, steps) && n < |ws|
    ensures Models(MapAt(ws, steps, n), ws[n].slots)
    decreases n
  {
    if n == 0 {
      assert forall s :: 0 <= s < SLOTS ==> ws[0].slots[s].id == 0;
    } else {
      TableIsAMap(start, ws, steps, n - 1);
      TableIsSafe(start, ws, steps, n - 1);
      StepIsTheMap(start, ws[n - 1], steps[n - 1], MapAt(ws, steps, n - 1));
    }
  }
}
