/** A customer agreement and its mRID-keyed collection of pricing structures.

    The collection's storage is either absent (Python's `None`) or a non-empty
    set whose members have pairwise distinct mRIDs; removing the last member
    or clearing makes it absent again rather than leaving an empty set. The
    step functions below say what each operation does to the storage; the
    class's methods are proved to perform exactly those steps. */
module CustomerAgreements {
  import opened Wrappers

  /** A pricing structure, identified by its mRID. */
  datatype PricingStructure = PricingStructure(mrid: string, name: string)

  /** The `_pricing_structures` field: `None` or a set. */
  type Storage = Option<set<PricingStructure>>

  /** No two members share an mRID. */
  predicate UniqueMrids(s: set<PricingStructure>) {
    forall a, b :: a in s && b in s && a.mrid == b.mrid ==> a == b
  }

  /** The invariant of the storage: absent, or a non-empty set keyed by mRID. */
  predicate WellFormed(st: Storage) {
    st.Some? ==> st.value != {} && UniqueMrids(st.value)
  }

  /** The members, with absent storage read as no members. */
  function Members(st: Storage): set<PricingStructure> {
    match st
    case None => {}
    case Some(s) => s
  }

  /** The number of members, 0 for absent storage (`nlen`). */
  function Count(st: Storage): (n: nat)
    ensures n == |Members(st)|
    ensures WellFormed(st) ==> (n == 0 <==> st.None?)
  {
    match st
    case None => 0
    case Some(s) => |s|
  }

  /** Some member has mRID `m` (`contains_mrid`). */
  predicate ContainsMrid(st: Storage, m: string) {
    exists p | p in Members(st) :: p.mrid == m
  }

  /** The storage after an operation and what the operation returned. */
  datatype Step = Step(storage: Storage, outcome: Outcome)

  /** `add_pricing_structure`: a duplicate mRID raises before anything is
      touched; otherwise storage is allocated if absent and `ps` is added. */
  function AddStep(st: Storage, ps: PricingStructure): Step {
    if ContainsMrid(st, ps.mrid) then Step(st, Fail(ValueError))
    else Step(Some(Members(st) + {ps}), Pass)
  }

  /** `remove_pricing_structure`: removing from absent storage, or removing a
      non-member, raises `KeyError`; removing the last member makes the
      storage absent. */
  function RemoveStep(st: Storage, ps: PricingStructure): Step {
    match st
    case None => Step(None, Fail(KeyError))
    case Some(s) =>
      if ps !in s then Step(st, Fail(KeyError))
      else if s - {ps} == {} then Step(None, Pass)
      else Step(Some(s - {ps}), Pass)
  }

  /** `get_pricing_structure`: the member with mRID `m`, or `KeyError`. */
  function GetByMrid(st: Storage, m: string): (r: Result<PricingStructure>)
    requires WellFormed(st)
    ensures r.Ok? <==> ContainsMrid(st, m)
    ensures r.Ok? ==> r.value in Members(st) && r.value.mrid == m
    ensures r.Err? ==> r.error == KeyError
    ensures forall p :: p in Members(st) && p.mrid == m ==> r == Ok(p)
  {
    if ContainsMrid(st, m) then
      var p :| p in Members(st) && p.mrid == m;
      Ok(p)
    else Err(KeyError)
  }

  /** A failed add leaves the storage exactly as it was; a successful one
      adds `ps` and nothing else, raising the count by one and keeping the
      invariant. */
  lemma AddStepSpec(st: Storage, ps: PricingStructure)
    requires WellFormed(st)
    ensures var step := AddStep(st, ps);
      && WellFormed(step.storage)
      && (step.outcome.Fail? <==> ContainsMrid(st, ps.mrid))
      && (step.outcome.Fail? ==> step == Step(st, Fail(ValueError)))
      && (step.outcome.Pass? ==>
            Members(step.storage) == Members(st) + {ps} && Count(step.storage) == Count(st) + 1)
  {
    if !ContainsMrid(st, ps.mrid) {
      assert ps !in Members(st);
      var s := Members(st) + {ps};
      forall a, b | a in s && b in s && a.mrid == b.mrid ensures a == b {
        assert a != ps ==> a in Members(st);
        assert b != ps ==> b in Members(st);
      }
    }
  }

  /** A failed remove leaves the storage as it was; a successful one takes
      out `ps` and nothing else and lowers the count by one, resetting the
      storage to absent when it empties. */
  lemma RemoveStepSpec(st: Storage, ps: PricingStructure)
    requires WellFormed(st)
    ensures var step := RemoveStep(st, ps);
      && WellFormed(step.storage)
      && (step.outcome.Fail? <==> ps !in Members(st))
      && (step.outcome.Fail? ==> step == Step(st, Fail(KeyError)))
      && (step.outcome.Pass? ==>
            && Members(step.storage) == Members(st) - {ps}
            && Count(step.storage) == Count(st) - 1
            && (Members(st) == {ps} ==> step.storage == None))
  {
    if ps in Members(st) {
      assert Members(st) == (Members(st) - {ps}) + {ps};
    }
  }

  /** An operation on the collection. */
  datatype Op = Add(ps: PricingStructure) | Remove(ps: PricingStructure) | Clear

  /** One operation's step; `clear_pricing_structures` always makes the
      storage absent. */
  function Apply(st: Storage, op: Op): Step {
    match op
    case Add(ps) => AddStep(st, ps)
    case Remove(ps) => RemoveStep(st, ps)
    case Clear => Step(None, Pass)
  }

  /** The storage after running the operations in order, failed ones
      included (each failure leaves the storage as it was). */
  function Run(st: Storage, ops: seq<Op>): Storage
    decreases |ops|
  {
    if ops == [] then st else Run(Apply(st, ops[0]).storage, ops[1..])
  }

  /** Successful adds minus successful removes along a run. */
  function NetAdds(st: Storage, ops: seq<Op>): int
    decreases |ops|
  {
    if ops == [] then 0
    else
      var step := Apply(st, ops[0]);
      var delta := if step.outcome.Fail? then 0 else if ops[0].Add? then 1 else if ops[0].Remove? then -1 else 0;
      delta + NetAdds(step.storage, ops[1..])
  }

  /** No sequence of adds, removes and clears ever produces two members with
      the same mRID, or an allocated but empty storage. */
  lemma {:induction false} RunKeepsWellFormed(st: Storage, ops: seq<Op>)
    requires WellFormed(st)
    ensures WellFormed(Run(st, ops))
    decreases |ops|
  {
    if ops != [] {
      match ops[0] {
        case Add(ps) => AddStepSpec(st, ps);
        case Remove(ps) => RemoveStepSpec(st, ps);
        case Clear =>
      }
      RunKeepsWellFormed(Apply(st, ops[0]).storage, ops[1..]);
    }
  }

  /** Without clears, the count after a run is the count before it plus the
      successful adds minus the successful removes. */
  lemma {:induction false} RunCount(st: Storage, ops: seq<Op>)
    requires WellFormed(st)
    requires forall i :: 0 <= i < |ops| ==> !ops[i].Clear?
    ensures Count(Run(st, ops)) == Count(st) + NetAdds(st, ops)
    decreases |ops|
  {
    if ops != [] {
      match ops[0] {
        case Add(ps) => AddStepSpec(st, ps);
        case Remove(ps) => RemoveStepSpec(st, ps);
      }
      RunCount(Apply(st, ops[0]).storage, ops[1..]);
    }
  }

  /** An agreement between a customer and its supplier, holding the pricing
      structures that apply to it. */
  class CustomerAgreement {
    var pricingStructures: Storage

    ghost predicate Valid()
      reads this
    {
      WellFormed(pricingStructures)
    }

    constructor ()
      ensures Valid() && pricingStructures == None
    {
      pricingStructures := None;
    }

    /** The number of pricing structures: 0 exactly when storage is absent. */
    function NumPricingStructures(): (n: nat)
      reads this
      ensures n == |Members(pricingStructures)|
      ensures Valid() ==> (n == 0 <==> pricingStructures.None?)
    {
      Count(pricingStructures)
    }

    /** The pricing structures, in no particular order; none when absent. */
    function PricingStructures(): (r: set<PricingStructure>)
      reads this
      ensures pricingStructures.None? ==> r == {}
      ensures pricingStructures.Some? ==> r == pricingStructures.value
    {
      Members(pricingStructures)
    }

    /** The pricing structure with mRID `m`, or `KeyError` when none has it. */
    function GetPricingStructure(m: string): (r: Result<PricingStructure>)
      reads this
      requires Valid()
      ensures r.Ok? <==> exists p :: p in Members(pricingStructures) && p.mrid == m
      ensures r.Ok? ==> r.value in Members(pricingStructures) && r.value.mrid == m
      ensures r.Err? ==> r.error == KeyError
    {
      GetByMrid(pricingStructures, m)
    }

    method AddPricingStructure(ps: PricingStructure) returns (r: Outcome)
      requires Valid()
      modifies this
      ensures Valid()
      ensures Step(pricingStructures, r) == AddStep(old(pricingStructures), ps)
    {
      AddStepSpec(pricingStructures, ps);
      if ContainsMrid(pricingStructures, ps.mrid) {
        return Fail(ValueError);
      }
      var s := if pricingStructures.None? then {} else pricingStructures.value;
      s := s + {ps};
      pricingStructures := Some(s);
      r := Pass;
    }

    method RemovePricingStructure(ps: PricingStructure) returns (r: Outcome)
      requires Valid()
      modifies this
      ensures Valid()
      ensures Step(pricingStructures, r) == RemoveStep(old(pricingStructures), ps)
    {
      RemoveStepSpec(pricingStructures, ps);
      if pricingStructures.Some? {
        var s := pricingStructures.value;
        if ps !in s {
          return Fail(KeyError);
        }
        s := s - {ps};
        pricingStructures := if s == {} then None else Some(s);
        r := Pass;
      } else {
        r := Fail(KeyError);
      }
    }

    method ClearPricingStructures()
      requires Valid()
      modifies this
      ensures Valid()
      ensures pricingStructures == None && NumPricingStructures() == 0
    {
      pricingStructures := None;
    }
  }

  /** Adding a structure, failing to add another with its mRID, and removing
      it returns the agreement to having no storage at all. */
  method AgreementScenario()
  {
    var agreement := new CustomerAgreement();
    var p1 := PricingStructure("ps1", "flat");
    var p2 := PricingStructure("ps1", "tiered");
    var added := agreement.AddPricingStructure(p1);
    assert added == Pass && agreement.NumPricingStructures() == 1;
    var duplicate := agreement.AddPricingStructure(p2);
    assert ContainsMrid(Some({p1}), "ps1");
    assert duplicate == Fail(ValueError) && agreement.pricingStructures == Some({p1});
    assert agreement.GetPricingStructure("ps1") == Ok(p1);
    var removed := agreement.RemovePricingStructure(p1);
    assert removed == Pass && agreement.pricingStructures == None;
    var again := agreement.RemovePricingStructure(p1);
    assert again == Fail(KeyError);
  }
}
