/**
 * Kryo's FieldSerializer: a serializer that writes, reads and copies an
 * object field by field, following a cached plan of active and transient
 * field codecs (CachedField), pushing the type's generics scope onto the
 * session's resolver stack around the field loop, and registering each new
 * object with the reference tracker before its fields are populated.
 */
module FieldSerializers {
  import opened Wrappers
  import opened Session
  import opened Traversal

  /** The policy flags of FieldSerializerConfig that FieldSerializer consults. */
  datatype Config = Config(serializeTransient: bool, copyTransient: bool, optimizedGenerics: bool)

  /** The class being serialized: its name, its declared type parameters and, for an array class, its component type. */
  datatype TypeInfo = TypeInfo(name: ClassName, typeParameters: seq<string>, componentType: Option<ClassName>)

  /** A serializer instance bound to a field, by identity. */
  datatype SerializerRef = SerializerRef(id: string)

  datatype Error = IllegalArgument(message: string)

  /** The configurable attributes of a CachedField, taken together. */
  datatype FieldSettings = FieldSettings(valueClass: Option<ClassName>, serializer: Option<SerializerRef>,
                                         canBeNull: bool, varInt: bool, optimizePositive: bool, accessIndex: int)

  /** Controls how one field is serialized. */
  class CachedField {
    const name: string
    var valueClass: Option<ClassName>
    var serializer: Option<SerializerRef>
    var canBeNull: bool
    var accessIndex: int
    var varInt: bool
    var optimizePositive: bool

    function Settings(): FieldSettings
      reads this
    {
      FieldSettings(valueClass, serializer, canBeNull, varInt, optimizePositive, accessIndex)
    }

    /** A field codec as the plan builder creates it, with Java's field defaults. */
    constructor (name: string)
      ensures this.name == name
      ensures Settings() == FieldSettings(None, None, false, true, false, -1)
    {
      this.name := name;
      valueClass, serializer := None, None;
      canBeNull, accessIndex := false, -1;
      varInt, optimizePositive := true, false;
    }

    /** Fixes the value class; the serializer registered for it will be looked up, so any bound serializer is dropped. */
    method SetClass(valueClass: Option<ClassName>)
      modifies this
      ensures Settings() == old(Settings()).(valueClass := valueClass, serializer := None)
      ensures GetSerializer() == None
    {
      this.valueClass := valueClass;
      this.serializer := None;
    }

    /** Fixes the value class and the serializer together. */
    method SetClassAndSerializer(valueClass: Option<ClassName>, serializer: Option<SerializerRef>)
      modifies this
      ensures Settings() == old(Settings()).(valueClass := valueClass, serializer := serializer)
      ensures GetSerializer() == serializer
    {
      this.valueClass := valueClass;
      this.serializer := serializer;
    }

    method SetSerializer(serializer: Option<SerializerRef>)
      modifies this
      ensures Settings() == old(Settings()).(serializer := serializer)
      ensures GetSerializer() == serializer
    {
      this.serializer := serializer;
    }

    function GetSerializer(): Option<SerializerRef>
      reads this
    {
      serializer
    }

    method SetCanBeNull(canBeNull: bool)
      modifies this
      ensures Settings() == old(Settings()).(canBeNull := canBeNull)
      ensures GetCanBeNull() == canBeNull
    {
      this.canBeNull := canBeNull;
    }

    function GetCanBeNull(): bool
      reads this
    {
      canBeNull
    }

    method SetVarInt(varInt: bool)
      modifies this
      ensures Settings() == old(Settings()).(varInt := varInt)
      ensures GetVarInt() == varInt
    {
      this.varInt := varInt;
    }

    function GetVarInt(): bool
      reads this
    {
      varInt
    }

    method SetOptimizePositive(optimizePositive: bool)
      modifies this
      ensures Settings() == old(Settings()).(optimizePositive := optimizePositive)
      ensures GetOptimizePositive() == optimizePositive
    {
      this.optimizePositive := optimizePositive;
    }

    function GetOptimizePositive(): bool
      reads this
    {
      optimizePositive
    }

    function GetName(): string
    {
      name
    }

    /** Writes this field of `owner`; what reaches the stream is not modelled, only that this field was written. */
    method Write(kryo: Kryo, owner: Obj)
      modifies kryo`trace
      ensures kryo.trace == old(kryo.trace) + [FieldEvent(name, WriteOp(owner))]
    {
      kryo.trace := kryo.trace + [FieldEvent(name, WriteOp(owner))];
    }

    /** Reads this field into `target`. */
    method Read(kryo: Kryo, target: Obj)
      modifies kryo`trace
      ensures kryo.trace == old(kryo.trace) + [FieldEvent(name, ReadOp(target))]
    {
      kryo.trace := kryo.trace + [FieldEvent(name, ReadOp(target))];
    }

    /** Copies this field from `original` into `copy`. */
    method Copy(kryo: Kryo, original: Obj, copy: Obj)
      modifies kryo`trace
      ensures kryo.trace == old(kryo.trace) + [FieldEvent(name, CopyOp(original, copy))]
    {
      kryo.trace := kryo.trace + [FieldEvent(name, CopyOp(original, copy))];
    }
  }

  /** The names of a field array, in order. */
  function Names(fields: seq<CachedField>): (r: seq<string>)
    ensures |r| == |fields| && forall i :: 0 <= i < |fields| ==> r[i] == fields[i].name
  {
    seq(|fields|, i requires 0 <= i < |fields| => fields[i].name)
  }

  /** The generics scope the plan builder derives: present only for a generic type with bound arguments. */
  function BuildScope(typeParameters: seq<string>, generics: Option<seq<ClassName>>): Option<Scope>
  {
    if |typeParameters| > 0 && generics.Some? then Some(Scope(typeParameters, generics.value)) else None
  }

  /** No field before position `i` is named `name`. */
  predicate NoneNamedBefore(fields: seq<CachedField>, name: string, i: int)
  {
    forall j :: 0 <= j < i && j < |fields| ==> fields[j].name != name
  }

  class FieldSerializer {
    const kryo: Kryo
    const targetType: TypeInfo
    const componentType: Option<ClassName>
    const config: Config
    const typeParameters: seq<string>

    /** The plan: active fields and transient fields, each in plan order. */
    var fields: seq<CachedField>
    var transientFields: seq<CachedField>
    /** The bound generic arguments (null in Java when there are none) and the scope derived from them. */
    var generics: Option<seq<ClassName>>
    var genericsScope: Option<Scope>
    /** The plan rebuilds requested so far, each with its regenerate-only flag. */
    ghost var updates: seq<bool>

    /**
     * Builds a serializer for `targetType` from the plan the field discovery
     * produced (`active`, `transient`), then runs a full plan update.
     */
    constructor (kryo: Kryo, targetType: TypeInfo, generics: Option<seq<ClassName>>, config: Config,
                 active: seq<CachedField>, transient: seq<CachedField>)
      ensures this.kryo == kryo && this.targetType == targetType && GetFieldSerializerConfig() == config
      ensures typeParameters == targetType.typeParameters
      ensures |typeParameters| > 0 ==> componentType == None
      ensures |typeParameters| == 0 ==> componentType == targetType.componentType
      ensures GetFields() == active && GetTransientFields() == transient
      ensures GetGenerics() == generics && genericsScope == BuildScope(typeParameters, generics)
      ensures updates == [false]
    {
      this.kryo := kryo;
      this.targetType := targetType;
      this.config := config;
      typeParameters := targetType.typeParameters;
      componentType := if |targetType.typeParameters| == 0 then targetType.componentType else None;
      fields, transientFields := active, transient;
      this.generics := generics;
      genericsScope := None;
      updates := [];
      new;
      Update(false);
    }

    /**
     * Checked construction: a missing configuration is refused with
     * IllegalArgumentException; otherwise the serializer keeps the one given.
     */
    static method New(kryo: Kryo, targetType: TypeInfo, generics: Option<seq<ClassName>>, config: Option<Config>,
                      active: seq<CachedField>, transient: seq<CachedField>)
      returns (r: Result<FieldSerializer, Error>)
      ensures config.None? ==> r == Failure(IllegalArgument("config cannot be null."))
      ensures config.Some? ==> r.Success? && fresh(r.value)
      ensures config.Some? ==> r.value.GetFieldSerializerConfig() == config.value && r.value.targetType == targetType
      ensures config.Some? ==> r.value.componentType
                               == if |targetType.typeParameters| == 0 then targetType.componentType else None
      ensures config.Some? ==> r.value.GetFields() == active && r.value.GetTransientFields() == transient
      ensures config.Some? ==> r.value.kryo == kryo && r.value.typeParameters == targetType.typeParameters
      ensures config.Some? ==> r.value.GetGenerics() == generics
                               && r.value.genericsScope == BuildScope(targetType.typeParameters, generics)
      ensures config.Some? ==> r.value.updates == [false]
    {
      if config.None? {
        return Failure(IllegalArgument("config cannot be null."));
      }
      var s := new FieldSerializer(kryo, targetType, generics, config.value, active, transient);
      return Success(s);
    }

    function GetFieldSerializerConfig(): Config
    {
      config
    }

    function GetFields(): seq<CachedField>
      reads this
    {
      fields
    }

    function GetTransientFields(): seq<CachedField>
      reads this
    {
      transientFields
    }

    function GetGenerics(): Option<seq<ClassName>>
      reads this
    {
      generics
    }

    function GetType(): TypeInfo
    {
      targetType
    }

    function GetKryo(): Kryo
    {
      kryo
    }

    /**
     * The plan rebuild. Field discovery is outside this model: the field
     * arrays are kept, and the generics scope is derived again from the bound
     * arguments.
     */
    method Update(regenerateOnly: bool)
      modifies this`genericsScope, this`updates
      ensures genericsScope == BuildScope(typeParameters, generics)
      ensures updates == old(updates) + [regenerateOnly]
    {
      genericsScope := BuildScope(typeParameters, generics);
      updates := updates + [regenerateOnly];
    }

    method UpdateFields()
      modifies this`genericsScope, this`updates
      ensures genericsScope == BuildScope(typeParameters, generics)
      ensures updates == old(updates) + [false]
    {
      Update(false);
    }

    /**
     * Rebinds the generic arguments. Without optimized generics nothing
     * changes; otherwise the arguments are stored, and a regenerate-only
     * update follows exactly when the type declares type parameters.
     */
    method SetGenerics(kryo: Kryo, generics: Option<seq<ClassName>>)
      modifies this`generics, this`genericsScope, this`updates
      ensures !config.optimizedGenerics ==>
        this.generics == old(this.generics) && genericsScope == old(genericsScope) && updates == old(updates)
      ensures config.optimizedGenerics ==> GetGenerics() == generics
      ensures config.optimizedGenerics ==>
        updates == old(updates) + (if |typeParameters| > 0 then [true] else [])
      ensures config.optimizedGenerics ==>
        genericsScope == if |typeParameters| > 0 then BuildScope(typeParameters, generics) else old(genericsScope)
    {
      if !config.optimizedGenerics {
        return;
      }
      this.generics := generics;
      if |typeParameters| > 0 {
        Update(true);
      }
    }

    /** The resolver frame pushed around a field loop for `owner`: only with optimized generics and a scope. */
    function ScopeFrame(owner: ClassName): (f: Option<Frame>)
      reads this
    {
      if config.optimizedGenerics && genericsScope.Some? then Some(Frame(owner, genericsScope.value)) else None
    }

    /**
     * With optimized generics, rebuilds the plan when arguments are bound and
     * pushes the scope for `owner` when there is one; returns the frame pushed.
     */
    method EnterScope(kryo: Kryo, owner: ClassName) returns (frame: Option<Frame>)
      modifies this`genericsScope, this`updates, kryo`scopes, kryo`trace
      ensures genericsScope == if config.optimizedGenerics && generics.Some? then BuildScope(typeParameters, generics)
                               else old(genericsScope)
      ensures updates == old(updates) + (if config.optimizedGenerics && generics.Some? then [false] else [])
      ensures frame == ScopeFrame(owner)
      ensures kryo.scopes == old(kryo.scopes) + (if frame.Some? then [frame.value] else [])
      ensures kryo.trace == old(kryo.trace) + (if frame.Some? then [Pushed(frame.value)] else [])
    {
      frame := None;
      if config.optimizedGenerics {
        // Java also tests typeParameters != null here, which always holds.
        if generics.Some? {
          Update(false);
        }
        if genericsScope.Some? {
          frame := Some(Frame(owner, genericsScope.value));
          kryo.PushScope(frame.value);
        }
      }
    }

    /** Writes every active field of `obj`, then every transient one when serializeTransient holds. */
    method Write(kryo: Kryo, obj: Obj)
      modifies this`genericsScope, this`updates, kryo`scopes, kryo`trace
      ensures genericsScope == if config.optimizedGenerics && generics.Some? then BuildScope(typeParameters, generics)
                               else old(genericsScope)
      ensures updates == old(updates) + (if config.optimizedGenerics && generics.Some? then [false] else [])
      ensures kryo.trace == old(kryo.trace)
        + WriteTrace(ScopeFrame(targetType.name), obj, Names(GetFields()), Names(GetTransientFields()),
                     config.serializeTransient)
      ensures kryo.scopes == old(kryo.scopes)
    {
      var frame := EnterScope(kryo, targetType.name);
      ghost var t0 := kryo.trace;
      ghost var activePart := FieldEvents(Names(fields), WriteOp(obj));
      ghost var transientPart := if config.serializeTransient then FieldEvents(Names(transientFields), WriteOp(obj)) else [];
      WriteEach(kryo, fields, obj);
      ghost var t1 := kryo.trace;
      assert t1 == t0 + activePart;
      if config.serializeTransient {
        WriteEach(kryo, transientFields, obj);
      }
      assert kryo.trace == t1 + transientPart;
      ghost var body := activePart + transientPart;
      AppendTwo(t0, activePart, transientPart);
      assert kryo.trace == t0 + body;
      if config.optimizedGenerics && genericsScope.Some? {
        kryo.PopScope();
        ExitScopeTrace(old(kryo.trace), frame, body, kryo.trace);
      } else {
        assert frame == None && t0 == old(kryo.trace);
      }
    }

    /** One field loop of write: `fs[i].write(output, object)` for i in order. */
    static method WriteEach(kryo: Kryo, fs: seq<CachedField>, obj: Obj)
      modifies kryo`trace
      ensures kryo.trace == old(kryo.trace) + FieldEvents(Names(fs), WriteOp(obj))
    {
      var i := 0;
      while i < |fs|
        invariant 0 <= i <= |fs|
        invariant kryo.trace == old(kryo.trace) + FieldEvents(Names(fs)[..i], WriteOp(obj))
      {
        FieldEventsSnoc(Names(fs), i, WriteOp(obj));
        fs[i].Write(kryo, obj);
        i := i + 1;
      }
      assert Names(fs)[..|fs|] == Names(fs);
    }

    /**
     * Creates the result, registers it with the reference tracker, then reads
     * every active field into it, then every transient one when
     * serializeTransient holds; returns the created object.
     */
    method Read(kryo: Kryo, cls: ClassName) returns (obj: Obj)
      modifies this`genericsScope, this`updates, kryo`scopes, kryo`trace, kryo`references, kryo`nextId
      ensures genericsScope == if config.optimizedGenerics && generics.Some? then BuildScope(typeParameters, generics)
                               else old(genericsScope)
      ensures updates == old(updates) + (if config.optimizedGenerics && generics.Some? then [false] else [])
      ensures obj == Obj(old(kryo.nextId), cls) && kryo.nextId == old(kryo.nextId) + 1
      ensures kryo.references == old(kryo.references) + [obj]
      ensures kryo.trace == old(kryo.trace)
        + ReadTrace(ScopeFrame(cls), obj, Names(GetFields()), Names(GetTransientFields()), config.serializeTransient)
      ensures kryo.scopes == old(kryo.scopes)
    {
      // The scope is pushed for the `type` parameter of read, which shadows the serializer's own type.
      var frame := EnterScope(kryo, cls);
      ghost var t0 := kryo.trace;
      obj := Create(kryo, cls);
      kryo.Reference(obj);
      ghost var activePart := FieldEvents(Names(fields), ReadOp(obj));
      ghost var transientPart := if config.serializeTransient then FieldEvents(Names(transientFields), ReadOp(obj)) else [];
      ghost var t1 := kryo.trace;
      assert t1 == t0 + [Created(obj), Registered(obj)];
      ReadEach(kryo, fields, obj);
      ghost var t2 := kryo.trace;
      if config.serializeTransient {
        ReadEach(kryo, transientFields, obj);
      }
      assert kryo.trace == t2 + transientPart;
      ghost var body := [Created(obj), Registered(obj)] + (activePart + transientPart);
      AppendThree(t0, [Created(obj), Registered(obj)], activePart, transientPart);
      assert kryo.trace == t0 + body;
      // Java also requires the resolver to be non-null here; the session always has one.
      if config.optimizedGenerics && genericsScope.Some? {
        kryo.PopScope();
        ExitScopeTrace(old(kryo.trace), frame, body, kryo.trace);
      } else {
        assert frame == None && t0 == old(kryo.trace);
      }
    }

    /** One field loop of read: `fs[i].read(input, object)` for i in order. */
    static method ReadEach(kryo: Kryo, fs: seq<CachedField>, obj: Obj)
      modifies kryo`trace
      ensures kryo.trace == old(kryo.trace) + FieldEvents(Names(fs), ReadOp(obj))
    {
      var i := 0;
      while i < |fs|
        invariant 0 <= i <= |fs|
        invariant kryo.trace == old(kryo.trace) + FieldEvents(Names(fs)[..i], ReadOp(obj))
      {
        FieldEventsSnoc(Names(fs), i, ReadOp(obj));
        fs[i].Read(kryo, obj);
        i := i + 1;
      }
      assert Names(fs)[..|fs|] == Names(fs);
    }

    /** The creation hook of read; by default a new instance of the requested class. */
    method Create(kryo: Kryo, cls: ClassName) returns (obj: Obj)
      modifies kryo`nextId, kryo`trace
      ensures obj == Obj(old(kryo.nextId), cls) && kryo.nextId == old(kryo.nextId) + 1
      ensures kryo.trace == old(kryo.trace) + [Created(obj)]
    {
      obj := kryo.NewInstance(cls);
    }

    /** The creation hook of copy; by default a new instance of the original's runtime class. */
    method CreateCopy(kryo: Kryo, original: Obj) returns (copy: Obj)
      modifies kryo`nextId, kryo`trace
      ensures copy == Obj(old(kryo.nextId), original.cls) && kryo.nextId == old(kryo.nextId) + 1
      ensures kryo.trace == old(kryo.trace) + [Created(copy)]
    {
      copy := kryo.NewInstance(original.cls);
    }

    /**
     * Creates the copy, registers it, then copies every transient field when
     * copyTransient holds, then every active field; returns the copy.
     */
    method Copy(kryo: Kryo, original: Obj) returns (copy: Obj)
      modifies kryo`trace, kryo`references, kryo`nextId
      ensures copy == Obj(old(kryo.nextId), original.cls) && kryo.nextId == old(kryo.nextId) + 1
      ensures kryo.references == old(kryo.references) + [copy]
      ensures kryo.trace == old(kryo.trace)
        + CopyTrace(original, copy, Names(GetFields()), Names(GetTransientFields()), config.copyTransient)
    {
      ghost var t0 := kryo.trace;
      copy := CreateCopy(kryo, original);
      kryo.Reference(copy);
      ghost var transientPart := if config.copyTransient then FieldEvents(Names(transientFields), CopyOp(original, copy)) else [];
      ghost var t1 := kryo.trace;
      assert t1 == t0 + [Created(copy), Registered(copy)];
      if config.copyTransient {
        CopyEach(kryo, transientFields, original, copy);
      }
      ghost var t2 := kryo.trace;
      assert t2 == t1 + transientPart;
      CopyEach(kryo, fields, original, copy);
      AppendThree(t0, [Created(copy), Registered(copy)], transientPart, FieldEvents(Names(fields), CopyOp(original, copy)));
    }

    /** One field loop of copy: `fs[i].copy(original, copy)` for i in order. */
    static method CopyEach(kryo: Kryo, fs: seq<CachedField>, original: Obj, copy: Obj)
      modifies kryo`trace
      ensures kryo.trace == old(kryo.trace) + FieldEvents(Names(fs), CopyOp(original, copy))
    {
      var i := 0;
      while i < |fs|
        invariant 0 <= i <= |fs|
        invariant kryo.trace == old(kryo.trace) + FieldEvents(Names(fs)[..i], CopyOp(original, copy))
      {
        FieldEventsSnoc(Names(fs), i, CopyOp(original, copy));
        fs[i].Copy(kryo, original, copy);
        i := i + 1;
      }
      assert Names(fs)[..|fs|] == Names(fs);
    }

    /**
     * The first active field named `fieldName`; transient fields are not
     * searched. A missing name is refused with IllegalArgumentException naming
     * the field and the class.
     */
    method GetField(fieldName: string) returns (r: Result<CachedField, Error>)
      ensures r.Success? ==> exists i :: 0 <= i < |fields| && fields[i] == r.value && fields[i].name == fieldName
                                         && NoneNamedBefore(fields, fieldName, i)
      ensures r.Failure? <==> forall i :: 0 <= i < |fields| ==> fields[i].name != fieldName
      ensures r.Failure? ==> r.error == IllegalArgument("Field \"" + fieldName + "\" not found on class: " + targetType.name)
    {
      for i := 0 to |fields|
        invariant NoneNamedBefore(fields, fieldName, i)
      {
        if fields[i].name == fieldName {
          return Success(fields[i]);
        }
      }
      return Failure(IllegalArgument("Field \"" + fieldName + "\" not found on class: " + targetType.name));
    }
  }
}
