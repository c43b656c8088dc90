/**
 * The Promise host object: `resolve`, `reject`, `all`, the value-selecting
 * constructor, and `isResolved`, which settles an all-promise by walking its
 * members in order and stores the value it finds.
 *
 * The promises live in a realm whose heap is a sequence indexed by promise
 * id. The members of an all-promise always have smaller ids than the
 * all-promise itself, so that settling terminates.
 */
module Promises {
  import opened Wrappers

  /** The script values a promise may hold. */
  datatype JsValue =
    | Undefined
    | Null
    | FunctionValue(functionId: nat)
    | ArrayValue(items: seq<JsValue>)
    | ObjectValue(objectId: nat)

  /** An argument handed to the constructor, `resolve` or `reject`, or an element of the array given to `all`. */
  datatype Argument =
    | PromiseArg(promise: nat)
    | NativeObjectArg(thenProperty: JsValue)
    | ValueArg(v: JsValue)

  /** The fields `value_`, `all_` and `resolve_` of one promise. */
  datatype PromiseState = PromiseState(value: JsValue, all: Option<seq<nat>>, resolve: bool)

  /** Every member of an all-promise is an older promise. */
  predicate ValidHeap(heap: seq<PromiseState>) {
    forall i :: 0 <= i < |heap| && heap[i].all.Some? ==>
      forall j :: 0 <= j < |heap[i].all.value| ==> heap[i].all.value[j] < i
  }

  /** The members of the all-promise at id. */
  function Members(heap: seq<PromiseState>, id: nat): seq<nat>
    requires id < |heap| && heap[id].all.Some?
  {
    heap[id].all.value
  }

  /**
   * `Promise(object)`: the value of a promise, the `then` property of a
   * native object, or the object itself.
   */
  function InitialValue(heap: seq<PromiseState>, arg: Argument): JsValue
    requires arg.PromiseArg? ==> arg.promise < |heap|
  {
    match arg
    case PromiseArg(p) => heap[p].value
    case NativeObjectArg(thenProperty) => thenProperty
    case ValueArg(v) => v
  }

  /** `isResolved` on the promise at id, as a function of the heap it starts from. */
  function Settled(heap: seq<PromiseState>, id: nat): bool
    requires ValidHeap(heap) && id < |heap|
    decreases id, 1, 0
  {
    if heap[id].all.None? then heap[id].resolve
    else FirstUnsettled(heap, id, 0) == -1 && heap[id].resolve
  }

  /**
   * The index of the first member at or after k that does not settle as
   * resolved, or -1 when all of them do.
   */
  function FirstUnsettled(heap: seq<PromiseState>, id: nat, k: nat): (r: int)
    requires ValidHeap(heap) && id < |heap| && heap[id].all.Some? && k <= |Members(heap, id)|
    ensures r == -1 || (k <= r < |Members(heap, id)| && !Settled(heap, Members(heap, id)[r]))
    ensures forall j :: k <= j < (if r == -1 then |Members(heap, id)| else r) ==> Settled(heap, Members(heap, id)[j])
    decreases id, 0, |Members(heap, id)| - k
  {
    var members := Members(heap, id);
    if k == |members| then -1
    else if !Settled(heap, members[k]) then k
    else FirstUnsettled(heap, id, k + 1)
  }

  /** Lines 145-152: a function value takes no slot in the array (the slot stays null). */
  function Slot(v: JsValue): JsValue {
    if v.FunctionValue? then Null else v
  }

  /** The value the promise at id holds once `isResolved` has run on it. */
  function SettledValue(heap: seq<PromiseState>, id: nat): JsValue
    requires ValidHeap(heap) && id < |heap|
    decreases id, 1, 0
  {
    if heap[id].all.None? then heap[id].value
    else
      var k := FirstUnsettled(heap, id, 0);
      if k != -1 then SettledValue(heap, Members(heap, id)[k])
      else ArrayValue(Slots(heap, id, 0))
  }

  /** The slots of the members from k on. */
  function Slots(heap: seq<PromiseState>, id: nat, k: nat): (r: seq<JsValue>)
    requires ValidHeap(heap) && id < |heap| && heap[id].all.Some? && k <= |Members(heap, id)|
    ensures |r| == |Members(heap, id)| - k
    decreases id, 0, |Members(heap, id)| - k
  {
    var members := Members(heap, id);
    if k == |members| then []
    else [Slot(SettledValue(heap, members[k]))] + Slots(heap, id, k + 1)
  }

  /** Two heaps that differ at most in the values stored in all-promises. */
  predicate SameStructure(h1: seq<PromiseState>, h2: seq<PromiseState>) {
    && |h1| == |h2|
    && forall i :: 0 <= i < |h1| ==>
         && h1[i].all == h2[i].all
         && h1[i].resolve == h2[i].resolve
         && (h1[i].all.None? ==> h1[i].value == h2[i].value)
  }

  /** Every all-promise of h keeps its value from h0 or holds its settled value. */
  predicate SettledOrKept(h0: seq<PromiseState>, h: seq<PromiseState>)
    requires ValidHeap(h0) && |h| == |h0|
  {
    forall i :: 0 <= i < |h0| && h0[i].all.Some? ==> h[i].value == h0[i].value || h[i].value == SettledValue(h0, i)
  }

  /** Settling never reads the value stored in an all-promise, so stored values cannot change it. */
  lemma {:induction false} SettledIgnoresStoredValues(h1: seq<PromiseState>, h2: seq<PromiseState>, id: nat)
    requires ValidHeap(h1) && SameStructure(h1, h2) && id < |h1|
    ensures ValidHeap(h2)
    ensures Settled(h1, id) == Settled(h2, id)
    ensures SettledValue(h1, id) == SettledValue(h2, id)
    decreases id, 1
  {
    assert ValidHeap(h2) by {
      forall i | 0 <= i < |h2| && h2[i].all.Some?
        ensures forall j :: 0 <= j < |h2[i].all.value| ==> h2[i].all.value[j] < i
      {
        assert h1[i].all == h2[i].all;
      }
    }
    if h1[id].all.Some? {
      MembersAgree(h1, h2, id, 0);
      var k := FirstUnsettled(h1, id, 0);
      if k != -1 {
        SettledIgnoresStoredValues(h1, h2, Members(h1, id)[k]);
      }
    }
  }

  lemma {:induction false} MembersAgree(h1: seq<PromiseState>, h2: seq<PromiseState>, id: nat, k: nat)
    requires ValidHeap(h1) && ValidHeap(h2) && SameStructure(h1, h2) && id < |h1|
    requires h1[id].all.Some? && k <= |Members(h1, id)|
    ensures FirstUnsettled(h1, id, k) == FirstUnsettled(h2, id, k)
    ensures Slots(h1, id, k) == Slots(h2, id, k)
    decreases id, 0, |Members(h1, id)| - k
  {
    var members := Members(h1, id);
    if k < |members| {
      SettledIgnoresStoredValues(h1, h2, members[k]);
      MembersAgree(h1, h2, id, k + 1);
    }
  }

  /** Same structure is an equivalence along a run of calls; so is "settled or kept". */
  lemma SettledOrKeptChains(h0: seq<PromiseState>, h1: seq<PromiseState>, h2: seq<PromiseState>)
    requires ValidHeap(h0) && SameStructure(h0, h1) && SameStructure(h1, h2)
    requires SettledOrKept(h0, h1)
    requires ValidHeap(h1) && SettledOrKept(h1, h2)
    ensures SameStructure(h0, h2) && SettledOrKept(h0, h2)
  {
    forall i | 0 <= i < |h0| && h0[i].all.Some?
      ensures h2[i].value == h0[i].value || h2[i].value == SettledValue(h0, i)
    {
      SettledIgnoresStoredValues(h0, h1, i);
    }
  }

  /**
   * `all()` with no argument: no members, so it settles as resolved with
   * an empty array.
   */
  lemma EmptyAllSettles(heap: seq<PromiseState>, id: nat)
    requires ValidHeap(heap) && id < |heap|
    requires heap[id].all == Some([]) && heap[id].resolve
    ensures Settled(heap, id) && SettledValue(heap, id) == ArrayValue([])
  {
  }

  /**
   * An all-promise settles at the lowest-index member that does not, taking
   * that member's settled value.
   */
  lemma FirstUnsettledMemberDecides(heap: seq<PromiseState>, id: nat, k: nat)
    requires ValidHeap(heap) && id < |heap| && heap[id].all.Some?
    requires k < |Members(heap, id)| && !Settled(heap, Members(heap, id)[k])
    requires forall j :: 0 <= j < k ==> Settled(heap, Members(heap, id)[j])
    ensures !Settled(heap, id)
    ensures SettledValue(heap, id) == SettledValue(heap, Members(heap, id)[k])
  {
    var r := FirstUnsettled(heap, id, 0);
    assert r == k;
  }

  /**
   * When every member settles as resolved, the all-promise settles as its
   * own resolve flag says, holding the array of the members' values in
   * order, with function values left null.
   */
  lemma AllMembersSettled(heap: seq<PromiseState>, id: nat)
    requires ValidHeap(heap) && id < |heap| && heap[id].all.Some?
    requires forall j :: 0 <= j < |Members(heap, id)| ==> Settled(heap, Members(heap, id)[j])
    ensures Settled(heap, id) == heap[id].resolve
    ensures SettledValue(heap, id).ArrayValue?
    ensures |SettledValue(heap, id).items| == |Members(heap, id)|
    ensures forall j :: 0 <= j < |Members(heap, id)| ==>
      SettledValue(heap, id).items[j] == Slot(SettledValue(heap, Members(heap, id)[j]))
  {
    assert FirstUnsettled(heap, id, 0) == -1;
    SlotsAt(heap, id, 0);
  }

  lemma {:induction false} SlotsAt(heap: seq<PromiseState>, id: nat, k: nat)
    requires ValidHeap(heap) && id < |heap| && heap[id].all.Some? && k <= |Members(heap, id)|
    ensures forall j :: k <= j < |Members(heap, id)| ==>
      Slots(heap, id, k)[j - k] == Slot(SettledValue(heap, Members(heap, id)[j]))
    decreases |Members(heap, id)| - k
  {
    if k < |Members(heap, id)| {
      SlotsAt(heap, id, k + 1);
    }
  }

  /**
   * One member examined by the loop of isResolved: a settled member moves
   * the search on and contributes its slot; an unsettled one is the first.
   */
  lemma MemberStep(h0: seq<PromiseState>, id: nat, i: nat, ok: bool, v: JsValue)
    requires ValidHeap(h0) && id < |h0| && h0[id].all.Some? && i < |Members(h0, id)|
    requires ok == Settled(h0, Members(h0, id)[i]) && v == SettledValue(h0, Members(h0, id)[i])
    ensures ok ==> FirstUnsettled(h0, id, i) == FirstUnsettled(h0, id, i + 1)
    ensures ok ==> Slots(h0, id, i) == [Slot(v)] + Slots(h0, id, i + 1)
    ensures !ok ==> FirstUnsettled(h0, id, i) == i
  {
  }

  /** Moving one slot from the pending slots to the collected ones. */
  lemma CollectSlot(all: seq<JsValue>, values: seq<JsValue>, slot: JsValue, rest: seq<JsValue>)
    requires all == values + ([slot] + rest)
    ensures all == (values + [slot]) + rest
  {
  }

  /** Storing an all-promise's settled value keeps the heap settled-or-kept. */
  lemma StoreSettled(h0: seq<PromiseState>, h: seq<PromiseState>, id: nat, v: JsValue)
    requires ValidHeap(h0) && ValidHeap(h) && SameStructure(h0, h) && SettledOrKept(h0, h)
    requires id < |h| && h0[id].all.Some? && v == SettledValue(h0, id)
    ensures ValidHeap(h[id := h[id].(value := v)])
    ensures SameStructure(h0, h[id := h[id].(value := v)])
    ensures SettledOrKept(h0, h[id := h[id].(value := v)])
  {
    var h1 := h[id := h[id].(value := v)];
    assert forall i :: 0 <= i < |h1| ==> h1[i].all == h[i].all;
  }

  /** The promises of one window. */
  class Realm {
    var heap: seq<PromiseState>

    predicate Valid()
      reads this
    {
      ValidHeap(heap)
    }

    constructor()
      ensures Valid() && heap == []
    {
      heap := [];
    }

    /** `new Promise(object)`: a resolved promise holding the value chosen by InitialValue. */
    method Construct(arg: Argument) returns (id: nat)
      requires Valid() && (arg.PromiseArg? ==> arg.promise < |heap|)
      modifies this
      ensures Valid() && id == |old(heap)|
      ensures heap == old(heap) + [PromiseState(InitialValue(old(heap), arg), None, true)]
    {
      id := |heap|;
      heap := heap + [PromiseState(InitialValue(heap, arg), None, true)];
    }

    /** `Promise.resolve(args)`: resolved, holding the first argument or undefined. */
    method Resolve(args: seq<Argument>) returns (id: nat)
      requires Valid() && (forall i :: 0 <= i < |args| && args[i].PromiseArg? ==> args[i].promise < |heap|)
      modifies this
      ensures Valid() && id == |old(heap)| && |heap| == id + 1 && heap[..id] == old(heap)
      ensures heap[id].resolve && heap[id].all.None?
      ensures heap[id].value == if args == [] then Undefined else InitialValue(old(heap), args[0])
    {
      id := Construct(if |args| != 0 then args[0] else ValueArg(Undefined));
      heap := heap[id := heap[id].(resolve := true)];
    }

    /** `Promise.reject(args)`: rejected, holding the first argument or undefined. */
    method Reject(args: seq<Argument>) returns (id: nat)
      requires Valid() && (forall i :: 0 <= i < |args| && args[i].PromiseArg? ==> args[i].promise < |heap|)
      modifies this
      ensures Valid() && id == |old(heap)| && |heap| == id + 1 && heap[..id] == old(heap)
      ensures !heap[id].resolve && heap[id].all.None?
      ensures heap[id].value == if args == [] then Undefined else InitialValue(old(heap), args[0])
    {
      id := Construct(if |args| != 0 then args[0] else ValueArg(Undefined));
      heap := heap[id := heap[id].(resolve := false)];
    }

    /**
     * `Promise.all(args)`: `None` stands for a call without argument, which
     * gives no members. A promise element is taken as it is, any other is
     * wrapped by `resolve`, at the same position. The wrapping promises are
     * created before the all-promise, which holds null until settled.
     */
    method All(args: Option<seq<Argument>>) returns (id: nat)
      requires Valid()
      requires args.Some? ==> forall i :: 0 <= i < |args.value| && args.value[i].PromiseArg? ==>
                                 args.value[i].promise < |heap|
      modifies this
      ensures Valid() && id == |heap| - 1 && |old(heap)| <= id && heap[..|old(heap)|] == old(heap)
      ensures heap[id].resolve && heap[id].value == Null && heap[id].all.Some?
      ensures args.None? ==> heap[id].all == Some([])
      ensures args.Some? ==> |Members(heap, id)| == |args.value|
      ensures args.Some? ==> forall i :: 0 <= i < |args.value| ==>
        var m := Members(heap, id)[i];
        if args.value[i].PromiseArg? then m == args.value[i].promise
        else |old(heap)| <= m < id && heap[m] == PromiseState(InitialValue(old(heap), args.value[i]), None, true)
    {
      var members: seq<nat> := [];
      if args.Some? {
        var elements := args.value;
        for i := 0 to |elements|
          invariant Valid() && |old(heap)| <= |heap| && heap[..|old(heap)|] == old(heap)
          invariant |members| == i
          invariant forall j :: 0 <= j < i ==> members[j] < |heap|
          invariant forall j :: 0 <= j < i ==>
            if elements[j].PromiseArg? then members[j] == elements[j].promise
            else |old(heap)| <= members[j] < |heap|
                 && heap[members[j]] == PromiseState(InitialValue(old(heap), elements[j]), None, true)
        {
          ghost var before := heap;
          if elements[i].PromiseArg? {
            members := members + [elements[i].promise];
          } else {
            var wrapped := Resolve([elements[i]]);
            assert heap[..|before|] == before;
            assert heap[..|old(heap)|] == before[..|old(heap)|];
            members := members + [wrapped];
          }
        }
      }
      id := |heap|;
      heap := heap + [PromiseState(Null, Some(members), true)];
      assert heap[..id] == old(heap)[..] + heap[|old(heap)|..id];
    }

    /**
     * `isResolved(onRejected)`: the settlement of the promise as the heap
     * stood on entry; an all-promise stores its settled value, and so may
     * every all-promise met on the way, nothing else changes.
     */
    method IsResolved(id: nat) returns (r: bool)
      requires Valid() && id < |heap|
      modifies this
      ensures Valid() && SameStructure(old(heap), heap) && SettledOrKept(old(heap), heap)
      ensures r == Settled(old(heap), id)
      ensures heap[id].value == SettledValue(old(heap), id)
      decreases id, 1
    {
      if heap[id].all.None? {
        return heap[id].resolve;
      }
      ghost var h0 := heap;
      var k, v := SettleMembers(id);
      StoreSettled(h0, heap, id, v);
      heap := heap[id := heap[id].(value := v)];
      if k != -1 {
        return false;
      }
      return heap[id].resolve;
    }

    /**
     * Lines 138-152, the loop of isResolved over the members of an
     * all-promise: the index of the first member that does not settle (-1
     * when all do) and the value the all-promise then takes, that member's
     * value or the array of the members' slots.
     */
    method SettleMembers(id: nat) returns (k: int, v: JsValue)
      requires Valid() && id < |heap| && heap[id].all.Some?
      modifies this
      ensures Valid() && SameStructure(old(heap), heap) && SettledOrKept(old(heap), heap)
      ensures k == FirstUnsettled(old(heap), id, 0)
      ensures v == SettledValue(old(heap), id)
      decreases id, 0
    {
      ghost var h0 := heap;
      var members := heap[id].all.value;
      var values: seq<JsValue> := [];
      var i := 0;
      while i < |members|
        invariant 0 <= i <= |members| && members == Members(h0, id)
        invariant Valid() && SameStructure(h0, heap) && SettledOrKept(h0, heap)
        invariant FirstUnsettled(h0, id, 0) == FirstUnsettled(h0, id, i)
        invariant Slots(h0, id, 0) == values + Slots(h0, id, i)
      {
        var p := members[i];
        ghost var before := heap;
        var ok := IsResolved(p);
        SettledIgnoresStoredValues(h0, before, p);
        SettledOrKeptChains(h0, before, heap);
        MemberStep(h0, id, i, ok, heap[p].value);
        if !ok {
          return i, heap[p].value;
        }
        CollectSlot(Slots(h0, id, 0), values, Slot(heap[p].value), Slots(h0, id, i + 1));
        values := values + [if heap[p].value.FunctionValue? then Null else heap[p].value];
        i := i + 1;
      }
      return -1, ArrayValue(values);
    }
  }
}
