# Kryo FieldSerializer, modelled in Dafny

This project models the orchestration core of Kryo's `FieldSerializer`
(`src/com/esotericsoftware/kryo/serializers/FieldSerializer.java`) and its per-field
configuration record `CachedField`.

A `FieldSerializer` owns a configuration (`serializeTransient`, `copyTransient`,
`optimizedGenerics`), a cached plan made of an ordered array of active field codecs and an
ordered array of transient field codecs (held here as sequences, see "## Left out"), and the bound generic arguments with the generics
scope derived from them. `write` walks the plan over an object. `read` creates a new object,
registers it with the reference tracker and fills it. `copy` creates and registers a copy
and fills it from the original. Around the field loops of write and read, the serializer
pushes its generics scope onto the session's generics resolver stack and pops it afterwards.

The model is imperative, like the source:

- `Session.Kryo` is the session: an object allocator (`nextId`), the reference tracker
  (`references`), the generics resolver stack (`scopes`, top last) and `trace`, one log of
  every call made on the session, in order.
- `FieldSerializers.CachedField` is a class with the source's mutable attributes. Its abstract
  `write`/`read`/`copy` are modelled by what they are asked to do: each appends one
  `FieldEvent(name, op)` to the trace.
- `FieldSerializers.FieldSerializer` is a class whose `Write`, `Read` and `Copy` are loops over
  the field arrays (`seq<CachedField>`). They are proved against pure specification functions
  in module `Traversal`: `WriteTrace`, `ReadTrace` and `CopyTrace` give the exact event
  sequence each call appends.
- The lemmas in `Traversal` prove what the source promises about those sequences: field
  order, each field exactly once, the transient policy, register-before-populate, and
  resolver-stack balance. The balance is checked by replaying push/pop events (`Session.Replay`).

The accessors `GetFields`, `GetTransientFields`, `GetGenerics`, `GetFieldSerializerConfig`,
`GetType`, `GetKryo` and the `CachedField` getters are functions. They appear in the
contracts below rather than in rows of their own.

## Model

| member | source | states |
|---|---|---|
| `FieldSerializers.FieldSerializer.New` | src/com/esotericsoftware/kryo/serializers/FieldSerializer.java:68-82 | A missing config fails with `IllegalArgument("config cannot be null.")`. Otherwise a fresh serializer is returned whose `GetFieldSerializerConfig()` is the given config, whose type is the given type, and whose field arrays are the discovered plan. Its `componentType` is None when the type declares type parameters and the type's component type otherwise. It keeps `kryo`, takes `typeParameters` from the type, keeps the generics, derives the generics scope from them, and has performed exactly one full update. |
| `FieldSerializers.FieldSerializer.constructor` | src/com/esotericsoftware/kryo/serializers/FieldSerializer.java:68-82 | The constructor stores kryo, type and config unchanged and sets `typeParameters` from the type. It applies the same `componentType` rule. It keeps the constructor's generics and performs exactly one full update (`updates == [false]`), which derives the generics scope. |
| `FieldSerializers.FieldSerializer.UpdateFields` | src/com/esotericsoftware/kryo/serializers/FieldSerializer.java:84-86 | It requests one full (not regenerate-only) update, and the scope is derived again from the bound arguments. |
| `FieldSerializers.FieldSerializer.SetGenerics` | src/com/esotericsoftware/kryo/serializers/FieldSerializer.java:88-104 | Without `optimizedGenerics`, generics, scope and update log are all unchanged. With it, `GetGenerics()` returns the new arguments. A regenerate-only update (`true`) is logged exactly when the type has at least one type parameter, and only then does the scope change. |
| `FieldSerializers.FieldSerializer.EnterScope` | src/com/esotericsoftware/kryo/serializers/FieldSerializer.java:118-122 | With `optimizedGenerics`, the plan is rebuilt exactly when generics are bound. A frame is pushed, both on the resolver stack and in the trace, exactly when `optimizedGenerics` holds and a scope exists. Nothing else happens. |
| `FieldSerializers.FieldSerializer.Write` | src/com/esotericsoftware/kryo/serializers/FieldSerializer.java:115-134 | The appended trace is exactly `WriteTrace`: the active fields of `obj` in array order, then the transient fields in array order iff `serializeTransient`. It is bracketed by a push and a pop iff `optimizedGenerics` and a scope exists. The resolver stack ends as it started. |
| `FieldSerializers.FieldSerializer.WriteEach` | src/com/esotericsoftware/kryo/serializers/FieldSerializer.java:124-131 | One write loop calls `write` on every field of the array, in index order, once each. |
| `FieldSerializers.FieldSerializer.Read` | src/com/esotericsoftware/kryo/serializers/FieldSerializer.java:136-159 | It returns a new object of the requested class with the next identity, registered with the reference tracker. The appended trace is exactly `ReadTrace`: creation, registration, then the active and (iff `serializeTransient`) transient fields read into that object. The frame is pushed for read's own `type` argument. The resolver stack ends as it started. |
| `FieldSerializers.FieldSerializer.ReadEach` | src/com/esotericsoftware/kryo/serializers/FieldSerializer.java:146-153 | One read loop calls `read` on every field of the array into the target, in index order, once each. |
| `FieldSerializers.FieldSerializer.Create` | src/com/esotericsoftware/kryo/serializers/FieldSerializer.java:163-165 | The default creation hook allocates a new instance of exactly the requested class. |
| `FieldSerializers.FieldSerializer.GetField` | src/com/esotericsoftware/kryo/serializers/FieldSerializer.java:168-172 | It succeeds iff some active field has the name, and then returns the first such active field. Transient fields are never searched. On failure the error is `IllegalArgument` with the message naming the field and the class. |
| `FieldSerializers.FieldSerializer.CreateCopy` | src/com/esotericsoftware/kryo/serializers/FieldSerializer.java:204-206 | The default copy-creation hook allocates a new instance of the original's runtime class. |
| `FieldSerializers.FieldSerializer.Copy` | src/com/esotericsoftware/kryo/serializers/FieldSerializer.java:208-221 | It returns a new object of the original's class, registered with the reference tracker. The appended trace is exactly `CopyTrace`: creation, registration, the transient fields iff `copyTransient`, then the active fields, all copied from the original into that object. The resolver stack is untouched. |
| `FieldSerializers.FieldSerializer.CopyEach` | src/com/esotericsoftware/kryo/serializers/FieldSerializer.java:212-218 | One copy loop calls `copy` on every field of the array, in index order, once each. |
| `FieldSerializers.CachedField.constructor` | src/com/esotericsoftware/kryo/serializers/FieldSerializer.java:229-236 | The defaults are: no value class, no serializer, `canBeNull` false, `varInt` true, `optimizePositive` false, `accessIndex` -1. |
| `FieldSerializers.CachedField.SetClass` | src/com/esotericsoftware/kryo/serializers/FieldSerializer.java:241-244 | It sets the value class and clears the bound serializer. No other attribute changes. |
| `FieldSerializers.CachedField.SetClassAndSerializer` | src/com/esotericsoftware/kryo/serializers/FieldSerializer.java:248-251 | It sets the value class and the serializer together. No other attribute changes. |
| `FieldSerializers.CachedField.SetSerializer` | src/com/esotericsoftware/kryo/serializers/FieldSerializer.java:253-259 | Only the serializer changes, and `GetSerializer` returns it. |
| `FieldSerializers.CachedField.SetCanBeNull` | src/com/esotericsoftware/kryo/serializers/FieldSerializer.java:261-267 | Only `canBeNull` changes, and `GetCanBeNull` returns it. |
| `FieldSerializers.CachedField.SetVarInt` | src/com/esotericsoftware/kryo/serializers/FieldSerializer.java:269-276 | Only `varInt` changes, and `GetVarInt` returns it. |
| `FieldSerializers.CachedField.SetOptimizePositive` | src/com/esotericsoftware/kryo/serializers/FieldSerializer.java:278-286 | Only `optimizePositive` changes, and `GetOptimizePositive` returns it. |
| `FieldSerializers.CachedField.Write` | src/com/esotericsoftware/kryo/serializers/FieldSerializer.java:300 | Writing a field appends exactly one event: this field, written from the owner. |
| `FieldSerializers.CachedField.Read` | src/com/esotericsoftware/kryo/serializers/FieldSerializer.java:302 | Reading a field appends exactly one event: this field, read into the target. |
| `FieldSerializers.CachedField.Copy` | src/com/esotericsoftware/kryo/serializers/FieldSerializer.java:304 | Copying a field appends exactly one event: this field, copied from the original into the copy. |
| `Traversal.WriteVisitsFieldsOnceInOrder` | src/com/esotericsoftware/kryo/serializers/FieldSerializer.java:124-131 | The fields visited by a write, in order, are the active names followed by the transient names iff `serializeTransient`. When names are distinct across the plan, each active field is written exactly once. Each transient field is written once when `serializeTransient` holds and never otherwise. No other field is written. |
| `Traversal.ReadRegistersThenFollowsWriteOrder` | src/com/esotericsoftware/kryo/serializers/FieldSerializer.java:143-153 | In a read, the target is created and immediately registered, and every field event comes after the registration. Every field is read into that target. The field order is exactly the order a write uses for the same plan and policy. |
| `Traversal.CopyRegistersBeforeFields` | src/com/esotericsoftware/kryo/serializers/FieldSerializer.java:208-221 | In a copy, the new object is created and registered before any field is copied. Every field copy goes from the original into that object. |
| `Traversal.CopyVisitsTransientThenActive` | src/com/esotericsoftware/kryo/serializers/FieldSerializer.java:212-218 | A copy visits the transient fields first, and only iff `copyTransient` holds, then the active fields, in array order. With distinct names, each active field is copied once and each transient field once or never, according to the policy. |
| `Traversal.ScopedKeepsStack` | src/com/esotericsoftware/kryo/serializers/FieldSerializer.java:118-133 | A field loop bracketed by the optional frame leaves any resolver stack exactly as it found it and never pops an empty stack. It contains a push iff there is a frame, and a pop iff there is a frame. |
| `Traversal.WriteAndReadKeepStack` | src/com/esotericsoftware/kryo/serializers/FieldSerializer.java:115-159 | Replaying the pushes and pops of a complete write or read on any resolver stack gives back that stack. Each of them pushes iff it is given a frame. |
| `Traversal.FieldEvents` | src/com/esotericsoftware/kryo/serializers/FieldSerializer.java:125-126 | The events of one field loop: one event per field, at the field's own index, with the loop's operation. |

## Left out

- Field discovery and the plan builder (`CachedFields`: discovery, ordering, transient classification, `update`, `removeField`) are not part of this model, because that code is not among the files modelled. The discovered active and transient arrays are inputs to the constructor. The model's update keeps both arrays unchanged. It re-derives the generics scope by `BuildScope` (present only for a type with type parameters and bound arguments) and logs each update request with its regenerate-only flag in the ghost `updates`. Any re-selection of per-field serializers that a rebuild performs, and a full rescan undoing an earlier removal, are therefore not captured.
- `removeField(String)` and `removeField(CachedField)` (lines 174-180) only delegate to the plan builder and are left out with it.
- The convenience constructors at lines 60-66 are left out: they fill in a default `FieldSerializerConfig`, whose defaults are not among the files modelled.
- Java reflection (`Field`, `TypeVariable`, ReflectASM `FieldAccess`, `CachedField.getField`) is not modelled. Type parameters are a `seq<string>`, the component type is an `Option`, and `Class.getTypeParameters` is never null, so the source's `typeParameters != null` test always holds.
- The byte-level work of `Output`/`Input` and the bodies of the concrete field codecs are not modelled (they are abstract in this file). A field codec's effect is the one trace event it appends. The stream parameters are therefore dropped.
- Re-entrant calls are not modelled. A field codec that serializes a nested object with this same serializer, and through `setGenerics` changes this serializer's scope before the outer pop condition is evaluated, is outside the model.
- Exceptions thrown inside a field loop are not modelled. The source has no `finally` around the loops, so the stack balance proved here holds for calls that complete normally only.
- `read` pops only when `kryo.getGenericsResolver()` is non-null. The session here always has a resolver, so that extra test is not modelled.
- `Kryo.newInstance`, `kryo.reference` and the generics resolver are modelled only as the session state they change. `Session.Kryo.PopScope` requires a non-empty stack, since the resolver's own behaviour on an empty stack is not part of this model.
- TRACE logging (line 116), the `Optional` and `Bind` annotation declarations (lines 307-324) and the test suite for JDK immutable collections serializers are not modelled. Those tests rely on serializers and encoders that are not part of this model.
- `initializeCachedFields` (lines 106-107) is an empty extension hook and is not modelled. `CachedField.toString` (lines 296-298) only returns the name that `GetName` gives, so it is not modelled either.
- FieldSerializers.FieldSerializer.constructor: the generics given to the constructor are kept under every configuration. The model assumes that the plan builder's constructor (`new CachedFields(this, generics)`, not part of this model) stores them unconditionally. So the documented promise of `getGenerics` (lines 100-101), null when there are none or `optimizedGenerics` is false, is not modelled: with `optimizedGenerics` false, `GetGenerics()` still returns the constructor's generics.
- GetFields and GetTransientFields: the source returns the plan's live `CachedField[]` arrays (lines 184-192), so a caller that stores into them changes what later writes, reads and copies visit. The model holds each plan as a `seq<CachedField>` value, and these getters return that value, so writes through the returned arrays (aliasing of the arrays themselves) are not captured. Mutation of the `CachedField` objects the arrays hold is captured, since they are shared class instances.
