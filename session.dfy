/**
 * The serialization session a FieldSerializer works against: Kryo's object
 * allocator, its reference tracker and its generics resolver stack, together
 * with one trace of every call the serializer and its field codecs make on
 * them, in the order they are made.
 */
module Session {
  import opened Wrappers

  type ClassName = string

  /** A live object: its identity and its runtime class. */
  datatype Obj = Obj(id: nat, cls: ClassName)

  /** A generics scope: the type's parameter names bound to concrete argument classes. */
  datatype Scope = Scope(variables: seq<string>, arguments: seq<ClassName>)

  /** One entry of the generics resolver's stack: the type that pushed it and its scope. */
  datatype Frame = Frame(owner: ClassName, scope: Scope)

  /** What a field codec was asked to do. */
  datatype FieldOp =
    | WriteOp(owner: Obj)
    | ReadOp(target: Obj)
    | CopyOp(original: Obj, copy: Obj)

  datatype Event =
    | FieldEvent(field: string, op: FieldOp)
    | Pushed(frame: Frame)
    | Popped
    | Created(obj: Obj)
    | Registered(obj: Obj)

  predicate NoScopeEvents(events: seq<Event>)
  {
    forall i :: 0 <= i < |events| ==> !events[i].Pushed? && !events[i].Popped?
  }

  /**
   * The resolver stack after the push and pop events of `events` are applied
   * to `stack` in order; None when a pop finds the stack empty.
   */
  function Replay(stack: seq<Frame>, events: seq<Event>): Option<seq<Frame>>
    decreases |events|
  {
    if events == [] then Some(stack)
    else match events[0]
      case Pushed(f) => Replay(stack + [f], events[1..])
      case Popped => if stack == [] then None else Replay(stack[..|stack| - 1], events[1..])
      case _ => Replay(stack, events[1..])
  }

  /** Replaying a concatenation replays the first part, then the second from where it left the stack. */
  lemma {:induction false} ReplayAppend(stack: seq<Frame>, a: seq<Event>, b: seq<Event>)
    ensures Replay(stack, a + b) == match Replay(stack, a)
                                      case None => None
                                      case Some(s) => Replay(s, b)
    decreases |a|
  {
    if a == [] {
      assert a + b == b;
    } else {
      assert (a + b)[0] == a[0];
      assert (a + b)[1..] == a[1..] + b;
      match a[0]
      case Pushed(f) =>
        ReplayAppend(stack + [f], a[1..], b);
      case Popped =>
        if stack != [] {
          ReplayAppend(stack[..|stack| - 1], a[1..], b);
        }
      case _ =>
        ReplayAppend(stack, a[1..], b);
    }
  }

  /** Events that neither push nor pop leave every stack as it was. */
  lemma {:induction false} ReplayNeutral(stack: seq<Frame>, events: seq<Event>)
    requires NoScopeEvents(events)
    ensures Replay(stack, events) == Some(stack)
    decreases |events|
  {
    if events != [] {
      assert !events[0].Pushed? && !events[0].Popped?;
      assert NoScopeEvents(events[1..]) by {
        forall i | 0 <= i < |events[1..]|
          ensures !events[1..][i].Pushed? && !events[1..][i].Popped?
        {
          assert events[1..][i] == events[i + 1];
        }
      }
      ReplayNeutral(stack, events[1..]);
    }
  }

  /**
   * The session: `trace` logs every call made on it, `scopes` is the generics
   * resolver stack (top last), `references` lists the objects registered with
   * the reference tracker, and `nextId` is the allocator's next identity.
   */
  class Kryo {
    var trace: seq<Event>
    var scopes: seq<Frame>
    var references: seq<Obj>
    var nextId: nat

    constructor ()
      ensures trace == [] && scopes == [] && references == [] && nextId == 0
    {
      trace, scopes, references, nextId := [], [], [], 0;
    }

    /** Allocates a fresh instance of `cls`. */
    method NewInstance(cls: ClassName) returns (o: Obj)
      modifies this`nextId, this`trace
      ensures o == Obj(old(nextId), cls) && nextId == old(nextId) + 1
      ensures trace == old(trace) + [Created(o)]
    {
      o := Obj(nextId, cls);
      nextId := nextId + 1;
      trace := trace + [Created(o)];
    }

    /** Registers `o` with the reference tracker. */
    method Reference(o: Obj)
      modifies this`references, this`trace
      ensures references == old(references) + [o]
      ensures trace == old(trace) + [Registered(o)]
    {
      references := references + [o];
      trace := trace + [Registered(o)];
    }

    method PushScope(f: Frame)
      modifies this`scopes, this`trace
      ensures scopes == old(scopes) + [f]
      ensures trace == old(trace) + [Pushed(f)]
    {
      scopes := scopes + [f];
      trace := trace + [Pushed(f)];
    }

    /** Pops the top frame; the resolver has no frame to pop on an empty stack. */
    method PopScope()
      requires scopes != []
      modifies this`scopes, this`trace
      ensures scopes == old(scopes)[..|old(scopes)| - 1]
      ensures trace == old(trace) + [Popped]
    {
      scopes := scopes[..|scopes| - 1];
      trace := trace + [Popped];
    }
  }
}
