/**
 * The event sequences that FieldSerializer's write, read and copy produce on
 * the session, as functions of the plan (active and transient field names),
 * the configuration and the generics frame, and what is proved about them:
 * order, exactly-once visiting, resolver-stack balance, and registration of a
 * new object before any of its fields is populated.
 */
module Traversal {
  import opened Wrappers
  import opened Session

  /** One event per field name, in order. */
  function FieldEvents(names: seq<string>, op: FieldOp): (r: seq<Event>)
    ensures |r| == |names|
    ensures forall i :: 0 <= i < |names| ==> r[i] == FieldEvent(names[i], op)
  {
    if names == [] then [] else [FieldEvent(names[0], op)] + FieldEvents(names[1..], op)
  }

  lemma FieldEventsSnoc(names: seq<string>, i: nat, op: FieldOp)
    requires i < |names|
    ensures FieldEvents(names[..i + 1], op) == FieldEvents(names[..i], op) + [FieldEvent(names[i], op)]
  {
    var l, r := FieldEvents(names[..i + 1], op), FieldEvents(names[..i], op) + [FieldEvent(names[i], op)];
    assert |l| == |r|;
    forall k | 0 <= k < |l| ensures l[k] == r[k] { }
  }

  /** The active fields, then the transient ones when they are included: the order of write and read. */
  function Visit(active: seq<string>, transient: seq<string>, includeTransient: bool, op: FieldOp): seq<Event>
  {
    FieldEvents(active, op) + (if includeTransient then FieldEvents(transient, op) else [])
  }

  /** The transient fields first when they are copied, then the active ones: the order of copy. */
  function CopyVisit(active: seq<string>, transient: seq<string>, copyTransient: bool, op: FieldOp): seq<Event>
  {
    (if copyTransient then FieldEvents(transient, op) else []) + FieldEvents(active, op)
  }

  /** `body` bracketed by a push and a pop of `frame` when there is one. */
  function Scoped(frame: Option<Frame>, body: seq<Event>): seq<Event>
  {
    match frame
    case None => body
    case Some(f) => [Pushed(f)] + body + [Popped]
  }

  function WriteTrace(frame: Option<Frame>, owner: Obj, active: seq<string>, transient: seq<string>,
                      serializeTransient: bool): seq<Event>
  {
    Scoped(frame, Visit(active, transient, serializeTransient, WriteOp(owner)))
  }

  function ReadTrace(frame: Option<Frame>, target: Obj, active: seq<string>, transient: seq<string>,
                     serializeTransient: bool): seq<Event>
  {
    Scoped(frame, [Created(target), Registered(target)] + Visit(active, transient, serializeTransient, ReadOp(target)))
  }

  function CopyTrace(original: Obj, copy: Obj, active: seq<string>, transient: seq<string>,
                     copyTransient: bool): seq<Event>
  {
    [Created(copy), Registered(copy)] + CopyVisit(active, transient, copyTransient, CopyOp(original, copy))
  }

  /** The names of the fields visited by `events`, in order. */
  function FieldNames(events: seq<Event>): seq<string>
  {
    if events == [] then []
    else (if events[0].FieldEvent? then [events[0].field] else []) + FieldNames(events[1..])
  }

  predicate Distinct(names: seq<string>)
  {
    forall i, j :: 0 <= i < j < |names| ==> names[i] != names[j]
  }

  /**
   * `o` is created and, right after, registered with the reference tracker,
   * and every field event comes after the registration.
   */
  predicate RegisteredBeforeFields(events: seq<Event>, o: Obj)
  {
    exists k :: 1 <= k < |events| && events[k - 1] == Created(o) && events[k] == Registered(o) && FieldsAfter(events, k)
  }

  /** No field event occurs at or before position `k`. */
  predicate FieldsAfter(events: seq<Event>, k: int)
  {
    forall j :: 0 <= j < |events| && events[j].FieldEvent? ==> k < j
  }

  /** Every field event of `events` performs `op`. */
  predicate AllFieldEventsAre(events: seq<Event>, op: FieldOp)
  {
    forall j :: 0 <= j < |events| && events[j].FieldEvent? ==> events[j].op == op
  }

  predicate Pushes(events: seq<Event>)
  {
    exists k :: 0 <= k < |events| && events[k].Pushed?
  }

  predicate Pops(events: seq<Event>)
  {
    exists k :: 0 <= k < |events| && events[k].Popped?
  }

  // ---------------------------------------------------------------------------
  // Helper facts about field names and counts

  lemma {:induction false} FieldNamesAppend(a: seq<Event>, b: seq<Event>)
    ensures FieldNames(a + b) == FieldNames(a) + FieldNames(b)
    decreases |a|
  {
    if a == [] {
      assert a + b == b;
    } else {
      assert (a + b)[0] == a[0];
      assert (a + b)[1..] == a[1..] + b;
      FieldNamesAppend(a[1..], b);
    }
  }

  lemma {:induction false} FieldNamesOfFieldEvents(names: seq<string>, op: FieldOp)
    ensures FieldNames(FieldEvents(names, op)) == names
    decreases |names|
  {
    if names != [] {
      var evs := FieldEvents(names, op);
      assert evs[1..] == FieldEvents(names[1..], op);
      FieldNamesOfFieldEvents(names[1..], op);
      assert names == [names[0]] + names[1..];
    }
  }

  lemma FieldNamesOfScoped(frame: Option<Frame>, body: seq<Event>)
    ensures FieldNames(Scoped(frame, body)) == FieldNames(body)
  {
    if frame.Some? {
      FieldNamesAppend([Pushed(frame.value)] + body, [Popped]);
      FieldNamesAppend([Pushed(frame.value)], body);
    }
  }

  lemma FieldNamesOfNewObject(o: Obj, body: seq<Event>)
    ensures FieldNames([Created(o), Registered(o)] + body) == FieldNames(body)
  {
    FieldNamesAppend([Created(o), Registered(o)], body);
  }

  lemma {:induction false} CountFieldEvents(names: seq<string>, op: FieldOp, n: string)
    ensures multiset(FieldEvents(names, op))[FieldEvent(n, op)] == multiset(names)[n]
    decreases |names|
  {
    if names != [] {
      assert FieldEvents(names, op) == [FieldEvent(names[0], op)] + FieldEvents(names[1..], op);
      assert names == [names[0]] + names[1..];
      CountFieldEvents(names[1..], op, n);
    }
  }

  lemma {:induction false} CountDistinct(names: seq<string>, n: string)
    requires Distinct(names)
    ensures multiset(names)[n] == if n in names then 1 else 0
    decreases |names|
  {
    if names != [] {
      assert names == [names[0]] + names[1..];
      assert Distinct(names[1..]) by {
        forall i, j | 0 <= i < j < |names[1..]| ensures names[1..][i] != names[1..][j] {
          assert names[1..][i] == names[i + 1] && names[1..][j] == names[j + 1];
        }
      }
      assert names[0] !in names[1..] by {
        forall j | 0 <= j < |names[1..]| ensures names[1..][j] != names[0] {
          assert names[1..][j] == names[j + 1];
        }
      }
      CountDistinct(names[1..], n);
    }
  }

  /** Distinct names over the whole plan means distinct active and transient names, and no name in both. */
  lemma SplitDistinct(active: seq<string>, transient: seq<string>, n: string)
    requires Distinct(active + transient)
    ensures Distinct(active) && Distinct(transient)
    ensures !(n in active && n in transient)
  {
    var all := active + transient;
    forall i, j | 0 <= i < j < |active| ensures active[i] != active[j] {
      assert all[i] == active[i] && all[j] == active[j];
    }
    forall i, j | 0 <= i < j < |transient| ensures transient[i] != transient[j] {
      assert all[|active| + i] == transient[i] && all[|active| + j] == transient[j];
    }
    forall i, j | 0 <= i < |active| && 0 <= j < |transient| ensures active[i] != transient[j] {
      assert all[i] == active[i] && all[|active| + j] == transient[j];
    }
  }

  // Associativity steps the method proofs take explicitly, which keeps them cheap.
  lemma AppendTwo<T>(t: seq<T>, a: seq<T>, b: seq<T>)
    ensures t + a + b == t + (a + b)
  {
  }

  lemma AppendThree<T>(t: seq<T>, a: seq<T>, b: seq<T>, c: seq<T>)
    ensures t + a + b + c == t + (a + (b + c))
  {
  }

  /** A field loop bracketed by a push and a pop of `frame` is what Scoped describes. */
  lemma ExitScopeTrace(before: seq<Event>, frame: Option<Frame>, body: seq<Event>, after: seq<Event>)
    requires frame.Some?
    requires after == before + [Pushed(frame.value)] + body + [Popped]
    ensures after == before + Scoped(frame, body)
  {
    assert Scoped(frame, body) == [Pushed(frame.value)] + body + [Popped];
  }

  /** The field events of a traversal, read off as names: the plan's order. */
  lemma VisitNames(active: seq<string>, transient: seq<string>, includeTransient: bool, op: FieldOp)
    ensures FieldNames(Visit(active, transient, includeTransient, op)) == active + (if includeTransient then transient else [])
  {
    FieldNamesAppend(FieldEvents(active, op), if includeTransient then FieldEvents(transient, op) else []);
    FieldNamesOfFieldEvents(active, op);
    FieldNamesOfFieldEvents(transient, op);
  }

  lemma CopyVisitNames(active: seq<string>, transient: seq<string>, copyTransient: bool, op: FieldOp)
    ensures FieldNames(CopyVisit(active, transient, copyTransient, op)) == (if copyTransient then transient else []) + active
  {
    FieldNamesAppend(if copyTransient then FieldEvents(transient, op) else [], FieldEvents(active, op));
    FieldNamesOfFieldEvents(active, op);
    FieldNamesOfFieldEvents(transient, op);
  }

  lemma VisitCount(active: seq<string>, transient: seq<string>, includeTransient: bool, op: FieldOp, n: string)
    requires Distinct(active + transient)
    ensures multiset(Visit(active, transient, includeTransient, op))[FieldEvent(n, op)]
         == if n in active then 1 else if n in transient && includeTransient then 1 else 0
  {
    SplitDistinct(active, transient, n);
    CountFieldEvents(active, op, n);
    CountFieldEvents(transient, op, n);
    CountDistinct(active, n);
    CountDistinct(transient, n);
  }

  lemma CopyVisitCount(active: seq<string>, transient: seq<string>, copyTransient: bool, op: FieldOp, n: string)
    requires Distinct(active + transient)
    ensures multiset(CopyVisit(active, transient, copyTransient, op))[FieldEvent(n, op)]
         == if n in active then 1 else if n in transient && copyTransient then 1 else 0
  {
    SplitDistinct(active, transient, n);
    CountFieldEvents(active, op, n);
    CountFieldEvents(transient, op, n);
    CountDistinct(active, n);
    CountDistinct(transient, n);
  }

  /** Bracketing adds no field event. */
  lemma ScopedCount(frame: Option<Frame>, body: seq<Event>, n: string, op: FieldOp)
    ensures multiset(Scoped(frame, body))[FieldEvent(n, op)] == multiset(body)[FieldEvent(n, op)]
  {
  }

  /** Creating and registering adds no field event. */
  lemma NewObjectCount(o: Obj, body: seq<Event>, n: string, op: FieldOp)
    ensures multiset([Created(o), Registered(o)] + body)[FieldEvent(n, op)] == multiset(body)[FieldEvent(n, op)]
  {
  }

  lemma NewObjectFirst(o: Obj, body: seq<Event>, op: FieldOp)
    requires forall j :: 0 <= j < |body| ==> body[j].FieldEvent? && body[j].op == op
    ensures RegisteredBeforeFields([Created(o), Registered(o)] + body, o)
    ensures AllFieldEventsAre([Created(o), Registered(o)] + body, op)
  {
    var tr := [Created(o), Registered(o)] + body;
    forall j | 0 <= j < |tr| && tr[j].FieldEvent? ensures 1 < j && tr[j].op == op {
      if j >= 2 {
        assert tr[j] == body[j - 2];
      }
    }
    assert tr[0] == Created(o) && tr[1] == Registered(o) && FieldsAfter(tr, 1);
  }

  lemma ScopedKeepsOrder(frame: Option<Frame>, inner: seq<Event>, o: Obj, op: FieldOp)
    requires RegisteredBeforeFields(inner, o) && AllFieldEventsAre(inner, op)
    ensures RegisteredBeforeFields(Scoped(frame, inner), o) && AllFieldEventsAre(Scoped(frame, inner), op)
  {
    if frame.Some? {
      var tr := Scoped(frame, inner);
      var k :| 1 <= k < |inner| && inner[k - 1] == Created(o) && inner[k] == Registered(o) && FieldsAfter(inner, k);
      forall j | 0 <= j < |tr| && tr[j].FieldEvent? ensures k + 1 < j && tr[j].op == op {
        assert 1 <= j <= |inner| && tr[j] == inner[j - 1];
      }
      assert tr[k] == inner[k - 1] && tr[k + 1] == inner[k];
      assert FieldsAfter(tr, k + 1);
    }
  }

  // ---------------------------------------------------------------------------
  // Properties of write, read and copy

  /**
   * write visits the active fields in order and then, exactly when
   * serializeTransient holds, the transient fields in order; with distinct
   * names, each active field is written once, each transient field once or
   * never depending on the policy, and nothing else is written.
   */
  lemma WriteVisitsFieldsOnceInOrder(frame: Option<Frame>, owner: Obj, active: seq<string>, transient: seq<string>,
                                     serializeTransient: bool, n: string)
    ensures FieldNames(WriteTrace(frame, owner, active, transient, serializeTransient))
         == active + (if serializeTransient then transient else [])
    ensures Distinct(active + transient) ==>
      multiset(WriteTrace(frame, owner, active, transient, serializeTransient))[FieldEvent(n, WriteOp(owner))]
      == if n in active then 1 else if n in transient && serializeTransient then 1 else 0
  {
    var op := WriteOp(owner);
    var body := Visit(active, transient, serializeTransient, op);
    FieldNamesOfScoped(frame, body);
    VisitNames(active, transient, serializeTransient, op);
    ScopedCount(frame, body, n, op);
    if Distinct(active + transient) {
      VisitCount(active, transient, serializeTransient, op, n);
    }
  }

  /**
   * read creates and registers the target before any field is read, reads
   * every field into that target, and visits the fields in the same order as
   * write does for the same plan and policy.
   */
  lemma ReadRegistersThenFollowsWriteOrder(frame: Option<Frame>, writeFrame: Option<Frame>, owner: Obj, target: Obj,
                                           active: seq<string>, transient: seq<string>, serializeTransient: bool)
    ensures RegisteredBeforeFields(ReadTrace(frame, target, active, transient, serializeTransient), target)
    ensures AllFieldEventsAre(ReadTrace(frame, target, active, transient, serializeTransient), ReadOp(target))
    ensures FieldNames(ReadTrace(frame, target, active, transient, serializeTransient))
         == FieldNames(WriteTrace(writeFrame, owner, active, transient, serializeTransient))
  {
    var op := ReadOp(target);
    var body := Visit(active, transient, serializeTransient, op);
    var inner := [Created(target), Registered(target)] + body;
    NewObjectFirst(target, body, op);
    ScopedKeepsOrder(frame, inner, target, op);
    FieldNamesOfScoped(frame, inner);
    FieldNamesOfNewObject(target, body);
    VisitNames(active, transient, serializeTransient, op);
    WriteVisitsFieldsOnceInOrder(writeFrame, owner, active, transient, serializeTransient, "");
  }

  /**
   * copy creates and registers the copy before any field is copied, and
   * every field it copies goes from the original into that new copy.
   */
  lemma CopyRegistersBeforeFields(original: Obj, copy: Obj, active: seq<string>, transient: seq<string>,
                                  copyTransient: bool)
    ensures RegisteredBeforeFields(CopyTrace(original, copy, active, transient, copyTransient), copy)
    ensures AllFieldEventsAre(CopyTrace(original, copy, active, transient, copyTransient), CopyOp(original, copy))
  {
    NewObjectFirst(copy, CopyVisit(active, transient, copyTransient, CopyOp(original, copy)), CopyOp(original, copy));
  }

  /**
   * copy copies the transient fields first, only when copyTransient holds,
   * and the active fields second, each in plan order; with distinct names,
   * each active field is copied once and each transient field once or never.
   */
  lemma CopyVisitsTransientThenActive(original: Obj, copy: Obj, active: seq<string>, transient: seq<string>,
                                      copyTransient: bool, n: string)
    ensures FieldNames(CopyTrace(original, copy, active, transient, copyTransient))
         == (if copyTransient then transient else []) + active
    ensures Distinct(active + transient) ==>
      multiset(CopyTrace(original, copy, active, transient, copyTransient))[FieldEvent(n, CopyOp(original, copy))]
      == if n in active then 1 else if n in transient && copyTransient then 1 else 0
  {
    var op := CopyOp(original, copy);
    var body := CopyVisit(active, transient, copyTransient, op);
    FieldNamesOfNewObject(copy, body);
    CopyVisitNames(active, transient, copyTransient, op);
    NewObjectCount(copy, body, n, op);
    if Distinct(active + transient) {
      CopyVisitCount(active, transient, copyTransient, op, n);
    }
  }

  /**
   * A bracketed traversal leaves the resolver stack as it found it, without
   * popping an empty stack, and it pushes, and pops, exactly when there is a
   * frame.
   */
  lemma ScopedKeepsStack(stack: seq<Frame>, frame: Option<Frame>, body: seq<Event>)
    requires NoScopeEvents(body)
    ensures Replay(stack, Scoped(frame, body)) == Some(stack)
    ensures Pushes(Scoped(frame, body)) <==> frame.Some?
    ensures Pops(Scoped(frame, body)) <==> frame.Some?
  {
    var tr := Scoped(frame, body);
    match frame
    case None =>
      ReplayNeutral(stack, body);
    case Some(f) =>
      ReplayAppend(stack, [Pushed(f)], body + [Popped]);
      ReplayAppend(stack + [f], body, [Popped]);
      ReplayNeutral(stack + [f], body);
      assert [Pushed(f)] + (body + [Popped]) == tr;
      assert (stack + [f])[..|stack + [f]| - 1] == stack;
      assert tr[0].Pushed? && tr[|tr| - 1].Popped?;
  }

  /** write and read each leave the resolver stack as they found it, and push exactly when given a frame. */
  lemma WriteAndReadKeepStack(stack: seq<Frame>, frame: Option<Frame>, owner: Obj, target: Obj,
                              active: seq<string>, transient: seq<string>, serializeTransient: bool)
    ensures Replay(stack, WriteTrace(frame, owner, active, transient, serializeTransient)) == Some(stack)
    ensures Replay(stack, ReadTrace(frame, target, active, transient, serializeTransient)) == Some(stack)
    ensures Pushes(WriteTrace(frame, owner, active, transient, serializeTransient)) <==> frame.Some?
    ensures Pushes(ReadTrace(frame, target, active, transient, serializeTransient)) <==> frame.Some?
  {
    var wbody := Visit(active, transient, serializeTransient, WriteOp(owner));
    var rbody := [Created(target), Registered(target)] + Visit(active, transient, serializeTransient, ReadOp(target));
    assert NoScopeEvents(wbody);
    assert NoScopeEvents(rbody) by {
      forall i | 0 <= i < |rbody| ensures !rbody[i].Pushed? && !rbody[i].Popped? {
        if i >= 2 {
          assert rbody[i] == Visit(active, transient, serializeTransient, ReadOp(target))[i - 2];
        }
      }
    }
    ScopedKeepsStack(stack, frame, wbody);
    ScopedKeepsStack(stack, frame, rbody);
  }
}
