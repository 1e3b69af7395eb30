/** Terminals of conducting equipment and their non-owning links to
    connectivity nodes.

    A connectivity node is owned by the network, not by the terminals plugged
    into it, so a terminal holds only a weak link to it. The model keeps the
    nodes in an arena (`NodeArena`): a node is a slot with a liveness flag, a
    link is a slot handle, and following a link whose node has been released
    yields "no node". */
module Terminals {
  import opened Wrappers

  /** The index of a connectivity node's slot in the arena. */
  type NodeHandle = nat

  /** A connectivity node: its mRID and whether its owner still holds it. */
  datatype NodeSlot = NodeSlot(mrid: string, alive: bool)

  /** Follows a weak link: the node when the link is set and the node is
      still alive, otherwise no node. Never fails. */
  function Deref(slots: seq<NodeSlot>, link: Option<NodeHandle>): (r: Option<NodeHandle>)
    ensures r.Some? ==> r == link && r.value < |slots| && slots[r.value].alive
    ensures r.None? <==> link.None? || link.value >= |slots| || !slots[link.value].alive
  {
    match link
    case None => None
    case Some(h) => if h < |slots| && slots[h].alive then link else None
  }

  /** The arena after a new, live node has been allocated at its end. */
  function Allocated(slots: seq<NodeSlot>, mrid: string): seq<NodeSlot> {
    slots + [NodeSlot(mrid, true)]
  }

  /** The arena after the owner of node `h` has let it go. */
  function Released(slots: seq<NodeSlot>, h: NodeHandle): seq<NodeSlot> {
    if h < |slots| then slots[h := slots[h].(alive := false)] else slots
  }

  /** Releasing a node makes every link to it read as "no node" and leaves
      every other link reading as before. */
  lemma DerefAfterRelease(slots: seq<NodeSlot>, link: Option<NodeHandle>, h: NodeHandle)
    ensures Deref(Released(slots, h), link) == if link == Some(h) then None else Deref(slots, link)
  {
  }

  /** Allocating a node changes no existing link, and the new node's handle
      reads as that node. */
  lemma DerefAfterAllocate(slots: seq<NodeSlot>, link: Option<NodeHandle>, mrid: string)
    requires link.Some? ==> link.value < |slots|
    ensures Deref(Allocated(slots, mrid), link) == Deref(slots, link)
    ensures Deref(Allocated(slots, mrid), Some(|slots|)) == Some(|slots|)
  {
  }

  /** The arena of connectivity nodes; the slots' liveness stands for the
      nodes still being referenced by their owner. */
  class NodeArena {
    var slots: seq<NodeSlot>

    constructor ()
      ensures slots == []
    {
      slots := [];
    }

    /** Creates a live node with the given mRID. */
    method Allocate(mrid: string) returns (h: NodeHandle)
      modifies this
      ensures slots == Allocated(old(slots), mrid)
      ensures h == |old(slots)|
    {
      h := |slots|;
      slots := slots + [NodeSlot(mrid, true)];
    }

    /** The owner drops node `h`; weak links to it now read as "no node". */
    method Release(h: NodeHandle)
      modifies this
      ensures slots == Released(old(slots), h)
    {
      if h < |slots| {
        slots := slots[h := slots[h].(alive := false)];
      }
    }
  }

  /** The equipment side of the ownership edge: the equipment's ordered
      terminals (conducting_equipment.py is not part of this model). */
  class ConductingEquipment {
    const mrid: string
    var terminals: seq<Terminal>

    constructor (mrid: string)
      ensures this.mrid == mrid && terminals == []
    {
      this.mrid := mrid;
      terminals := [];
    }
  }

  /** The outcome of assigning `ce` to a set-once owner link currently holding
      `current` (`null` is Python's `None`): the new link, or the error. */
  function SetOwner(current: ConductingEquipment?, ce: ConductingEquipment?): Result<ConductingEquipment?>
  {
    if current == null || current == ce then Ok(ce) else Err(ValueError)
  }

  /** The owner link after a sequence of assignment attempts in which each
      failed attempt leaves the link as it was. */
  function OwnerAfter(current: ConductingEquipment?, attempts: seq<ConductingEquipment?>): ConductingEquipment?
    decreases |attempts|
  {
    if attempts == [] then current
    else
      var next := match SetOwner(current, attempts[0])
        case Ok(ce) => ce
        case Err(_) => current;
      OwnerAfter(next, attempts[1..])
  }

  /** The first non-`None` equipment among the attempts, if there is one. */
  function FirstOwner(attempts: seq<ConductingEquipment?>): ConductingEquipment?
    decreases |attempts|
  {
    if attempts == [] then null
    else if attempts[0] != null then attempts[0]
    else FirstOwner(attempts[1..])
  }

  /** Once set, the owner link never changes: every later attempt either
      re-assigns the same equipment or fails. */
  lemma {:induction false} OwnerIsSetOnce(current: ConductingEquipment, attempts: seq<ConductingEquipment?>)
    ensures OwnerAfter(current, attempts) == current
    decreases |attempts|
  {
    if attempts != [] {
      OwnerIsSetOnce(current, attempts[1..]);
    }
  }

  /** Starting from no owner, the owner after any sequence of attempts is the
      first equipment that was assigned (assigning `None` to an unset link
      succeeds and changes nothing). */
  lemma {:induction false} OwnerIsFirstAssigned(attempts: seq<ConductingEquipment?>)
    ensures OwnerAfter(null, attempts) == FirstOwner(attempts)
    decreases |attempts|
  {
    if attempts != [] {
      if attempts[0] == null {
        OwnerIsFirstAssigned(attempts[1..]);
      } else {
        OwnerIsSetOnce(attempts[0], attempts[1..]);
      }
    }
  }

  /** Setting the owner to the equipment it already has succeeds any number
      of times; setting it to anything else fails with `ValueError`. */
  lemma SetOwnerOnceSet(current: ConductingEquipment, ce: ConductingEquipment?)
    ensures SetOwner(current, ce) == if ce == current then Ok(ce) else Err(ValueError)
  {
  }

  /** `s` with every occurrence of `x` removed, order kept (the list
      comprehension `[t for t in s if t is not x]`). */
  function Without<T(==)>(s: seq<T>, x: T): seq<T>
    decreases |s|
  {
    if s == [] then []
    else if s[0] == x then Without(s[1..], x)
    else [s[0]] + Without(s[1..], x)
  }

  /** Filtering `x` out of a sequence removes all and only the copies of `x`:
      every other element keeps its multiplicity. */
  lemma {:induction false} WithoutCounts<T>(s: seq<T>, x: T)
    ensures multiset(Without(s, x)) == multiset(s)[x := 0]
    ensures |Without(s, x)| == |s| - multiset(s)[x]
    decreases |s|
  {
    if s != [] {
      WithoutCounts(s[1..], x);
      assert s == [s[0]] + s[1..];
      assert multiset(s) == multiset{s[0]} + multiset(s[1..]);
    }
  }

  /** An element survives the filter exactly when it occurs and is not `x`. */
  lemma WithoutMembers<T>(s: seq<T>, x: T)
    ensures forall i :: 0 <= i < |Without(s, x)| ==> Without(s, x)[i] in s && Without(s, x)[i] != x
    ensures forall i :: 0 <= i < |s| && s[i] != x ==> s[i] in Without(s, x)
  {
    WithoutCounts(s, x);
    forall y | y in Without(s, x) || y in s ensures y in Without(s, x) <==> y in s && y != x {
      assert y in Without(s, x) <==> y in multiset(Without(s, x));
      assert y in s <==> y in multiset(s);
    }
  }

  /** Filtering distributes over concatenation, so the kept elements stay in
      their original order. */
  lemma {:induction false} WithoutAppend<T>(a: seq<T>, b: seq<T>, x: T)
    ensures Without(a + b, x) == Without(a, x) + Without(b, x)
    decreases |a|
  {
    if a == [] {
      assert a + b == b;
    } else {
      assert a + b == [a[0]] + (a[1..] + b);
      WithoutAppend(a[1..], b, x);
    }
  }

  /** A terminal: an mRID, a set-once link to its owning equipment and a weak
      link to the connectivity node it is plugged into. */
  class Terminal {
    const mrid: string
    /** The owning equipment; `null` while unset. */
    var conductingEquipment: ConductingEquipment?
    /** The weak link to a connectivity node; `None` while it was never set. */
    var cn: Option<NodeHandle>

    /** Creates a terminal, assigning the equipment through the set-once
        setter and plugging into `node` when one is given. */
    constructor (mrid: string, ce: ConductingEquipment?, node: Option<NodeHandle>)
      ensures this.mrid == mrid && conductingEquipment == ce && cn == node
    {
      this.mrid := mrid;
      conductingEquipment := null;
      cn := None;
      new;
      var owned := SetConductingEquipment(ce);
      assert owned == Pass;
      if node.Some? {
        var linked := SetConnectivityNode(node);
      }
    }

    /** The `conducting_equipment` setter: succeeds when the link is unset or
        already holds `ce`, and otherwise raises `ValueError` leaving the link
        unchanged. */
    method SetConductingEquipment(ce: ConductingEquipment?) returns (r: Outcome)
      modifies this`conductingEquipment
      ensures r == Pass <==> old(conductingEquipment) == null || old(conductingEquipment) == ce
      ensures r == Pass ==> conductingEquipment == ce
      ensures r != Pass ==> r == Fail(ValueError) && conductingEquipment == old(conductingEquipment)
      ensures SetOwner(old(conductingEquipment), ce) == if r == Pass then Ok(conductingEquipment) else Err(ValueError)
    {
      if conductingEquipment == null || conductingEquipment == ce {
        conductingEquipment := ce;
        r := Pass;
      } else {
        r := Fail(ValueError);
      }
    }

    /** The `connectivity_node` getter: the node while the link is set and
        the node alive, otherwise no node. Never fails. */
    function ConnectivityNode(arena: NodeArena): (r: Option<NodeHandle>)
      reads this, arena
      ensures r.Some? ==> r == cn && r.value < |arena.slots| && arena.slots[r.value].alive
      ensures cn.Some? && cn.value < |arena.slots| && arena.slots[cn.value].alive ==> r == cn
    {
      Deref(arena.slots, cn)
    }

    /** The `connectivity_node` setter: re-points the weak link to `node`.
        Wrapping `None` in a weak reference raises `TypeError`, so a `None`
        argument fails and leaves the link as it was. */
    method SetConnectivityNode(node: Option<NodeHandle>) returns (r: Outcome)
      modifies this`cn
      ensures node.Some? ==> r == Pass && cn == node
      ensures node.None? ==> r == Fail(TypeError) && cn == old(cn)
    {
      if node.Some? {
        cn := node;
        r := Pass;
      } else {
        r := Fail(TypeError);
      }
    }

    /** True exactly when the link is set and its node is still alive. */
    function Connected(arena: NodeArena): (b: bool)
      reads this, arena
      ensures b <==> cn.Some? && cn.value < |arena.slots| && arena.slots[cn.value].alive
    {
      ConnectivityNode(arena).Some?
    }

    /** The node's mRID while the terminal is connected, otherwise `None`. */
    function ConnectivityNodeId(arena: NodeArena): (r: Option<string>)
      reads this, arena
      ensures r.Some? <==> Connected(arena)
      ensures r.Some? ==> r.value == arena.slots[cn.value].mrid
    {
      match ConnectivityNode(arena)
      case Some(h) => Some(arena.slots[h].mrid)
      case None => None
    }

    /** The owning equipment's terminals other than this one, in order, with
        every entry identical to this terminal dropped and no other entry
        dropped; reading through an unset owner raises `AttributeError`. */
    function OtherTerminals(): (r: Result<seq<Terminal>>)
      reads this, conductingEquipment
      ensures conductingEquipment == null ==> r == Err(AttributeError)
      ensures conductingEquipment != null ==>
        && r.Ok?
        && (forall i :: 0 <= i < |r.value| ==> r.value[i] in conductingEquipment.terminals)
        && (forall i :: 0 <= i < |r.value| ==> r.value[i] != this)
        && (forall i :: 0 <= i < |conductingEquipment.terminals| && conductingEquipment.terminals[i] != this ==>
              conductingEquipment.terminals[i] in r.value)
        && multiset(r.value) == multiset(conductingEquipment.terminals)[this := 0]
        && |r.value| == |conductingEquipment.terminals| - multiset(conductingEquipment.terminals)[this]
    {
      if conductingEquipment == null then Err(AttributeError)
      else
        var ts := conductingEquipment.terminals;
        WithoutCounts(ts, this);
        WithoutMembers(ts, this);
        Ok(Without(ts, this))
    }

    /** Plugs the terminal into `node`, re-pointing any earlier link. */
    method Connect(node: NodeHandle)
      modifies this`cn
      ensures cn == Some(node)
    {
      var r := SetConnectivityNode(Some(node));
    }

    /** `disconnect` as written: it assigns `None` through the setter, whose
        `weakref.ref(None)` raises `TypeError`, so the link stays as it was. */
    method DisconnectAsWritten() returns (r: Outcome)
      modifies this`cn
      ensures r == Fail(TypeError) && cn == old(cn)
    {
      r := SetConnectivityNode(None);
    }

    /** `disconnect` as intended: the terminal is left with no node. */
    method Disconnect()
      modifies this`cn
      ensures cn == None
    {
      cn := None;
    }
  }

  /** The discrepancy in `disconnect`: as written, a terminal connected to a
      live node is still connected to it afterwards; the corrected version
      leaves it unconnected. */
  method DisconnectScenario()
  {
    var arena := new NodeArena();
    var n := arena.Allocate("cn1");
    var t := new Terminal("t1", null, Some(n));
    var r := t.DisconnectAsWritten();
    assert r == Fail(TypeError);
    assert t.Connected(arena) && t.ConnectivityNodeId(arena) == Some("cn1");
    t.Disconnect();
    assert !t.Connected(arena) && t.ConnectivityNodeId(arena) == None;
  }

  /** Connecting to a node that its owner then releases leaves the terminal
      unconnected, without any failure. */
  method ReleasedNodeScenario()
  {
    var arena := new NodeArena();
    var n1 := arena.Allocate("N1");
    var t1 := new Terminal("T1", null, None);
    assert !t1.Connected(arena) && t1.ConnectivityNodeId(arena) == None;
    t1.Connect(n1);
    assert t1.Connected(arena) && t1.ConnectivityNodeId(arena) == Some("N1");
    arena.Release(n1);
    assert !t1.Connected(arena) && t1.ConnectivityNodeId(arena) == None;
  }

  /** The owning equipment can be re-assigned to itself but not replaced. */
  method OwnershipScenario()
  {
    var e1 := new ConductingEquipment("E1");
    var e2 := new ConductingEquipment("E2");
    var t := new Terminal("T", e1, None);
    var same := t.SetConductingEquipment(e1);
    assert same == Pass && t.conductingEquipment == e1;
    var other := t.SetConductingEquipment(e2);
    assert other == Fail(ValueError) && t.conductingEquipment == e1;
  }
}
