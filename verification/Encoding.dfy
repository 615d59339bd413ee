/** Configuration as JSON, with extension keys beside fields (encoding.go:58-161, encoding.go:161-262). */
module Encoding {
  import opened Wrappers

  datatype Json =
    | Null | Boolean(b: bool) | Number(n: int) | String(s: string)
    | List(items: seq<Json>) | Object(members: map<string, Json>)

  /** How a struct decodes: strictly, with unknown keys as extensions, or also from a string for one field. */
  datatype Form = Plain | Extended | Shorthand(main: string)

  datatype Type =
    | Text | Bool | Int
    | Slice(elem: Type) | MapOf(elem: Type) | Pointer(elem: Type)
    | Struct(fields: map<string, Field>, form: Form)

  datatype Field = Field(omitEmpty: bool, typ: Type)

  /** Go values of these types. Structs are keyed by JSON name. Nil and empty slices and maps are one value. */
  datatype Value =
    | T(s: string) | B(b: bool) | N(n: int)
    | L(items: seq<Value>) | M(entries: map<string, Value>)
    | Nil | Ref(target: Value)
    | S(fields: map<string, Value>, extensions: map<string, Json>)

  predicate Typed(v: Value, t: Type)
    decreases t
  {
    match t
    case Text => v.T?
    case Bool => v.B?
    case Int => v.N?
    case Slice(elem) => v.L? && forall i | 0 <= i < |v.items| :: Typed(v.items[i], elem)
    case MapOf(elem) => v.M? && forall k | k in v.entries :: Typed(v.entries[k], elem)
    case Pointer(elem) => elem.Struct? && (v.Nil? || (v.Ref? && Typed(v.target, elem)))
    case Struct(fields, form) =>
      && v.S? && v.fields.Keys == fields.Keys && (form.Extended? || v.extensions == map[])
      && forall k | k in fields :: Typed(v.fields[k], fields[k].typ)
  }

  function Zero(t: Type): Value
    decreases t
  {
    match t
    case Text => T("")
    case Bool => B(false)
    case Int => N(0)
    case Slice(_) => L([])
    case MapOf(_) => M(map[])
    case Pointer(_) => Nil
    case Struct(fields, _) => S(map k | k in fields :: Zero(fields[k].typ), map[])
  }

  /** What omitempty leaves out. */
  predicate Empty(v: Value) {
    match v
    case T(s) => s == ""
    case B(b) => !b
    case N(n) => n == 0
    case L(items) => items == []
    case M(entries) => entries == map[]
    case Nil => true
    case Ref(_) => false
    case S(_, _) => false
  }

  // ----- Encoding -----

  function Encode(v: Value, t: Type): Json
    requires Typed(v, t)
    decreases t
  {
    match t
    case Text => String(v.s)
    case Bool => Boolean(v.b)
    case Int => Number(v.n)
    case Slice(elem) => List(seq(|v.items|, i requires 0 <= i < |v.items| => Encode(v.items[i], elem)))
    case MapOf(elem) => Object(map k | k in v.entries :: Encode(v.entries[k], elem))
    case Pointer(elem) => if v.Nil? then Null else Encode(v.target, elem)
    case Struct(fields, _) =>
      Object((map k | k in fields && !(fields[k].omitEmpty && Empty(v.fields[k])) ::
                Encode(v.fields[k], fields[k].typ)) + v.extensions)
  }

  // ----- Decoding -----

  /** None is an error. */
  function Decode(j: Json, t: Type): Option<Value>
    decreases t
  {
    if j.Null? then Some(Zero(t))
    else match t
      case Text => if j.String? then Some(T(j.s)) else None
      case Bool => if j.Boolean? then Some(B(j.b)) else None
      case Int => if j.Number? then Some(N(j.n)) else None
      case Slice(elem) =>
        if j.List? && forall i | 0 <= i < |j.items| :: Decode(j.items[i], elem).Some?
        then Some(L(seq(|j.items|, i requires 0 <= i < |j.items| => Decode(j.items[i], elem).value)))
        else None
      case MapOf(elem) =>
        if j.Object? && forall k | k in j.members :: Decode(j.members[k], elem).Some?
        then Some(M(map k | k in j.members :: Decode(j.members[k], elem).value))
        else None
      case Pointer(elem) =>
        var target := Decode(j, elem);
        if target.Some? then Some(Ref(target.value)) else None
      case Struct(fields, form) =>
        if form.Shorthand? && j.String? && form.main in fields && fields[form.main].typ.Text?
        then Some(S((map k | k in fields :: Zero(fields[k].typ))[form.main := T(j.s)], map[]))
        else if !j.Object? then None
        else
          var rest, extensions := Recognized(j.members, fields.Keys), Unknown(j.members, fields.Keys);
          if form.Extended? || extensions == map[] then
            if forall k | k in rest :: Decode(rest[k], fields[k].typ).Some?
            then Some(S(map k | k in fields ::
                          if k in rest then Decode(rest[k], fields[k].typ).value else Zero(fields[k].typ), extensions))
            else None
          else None
  }

  function Recognized(members: map<string, Json>, names: set<string>): map<string, Json> {
    map k | k in members && k in names :: members[k]
  }

  function Unknown(members: map<string, Json>, names: set<string>): map<string, Json> {
    map k | k in members && k !in names :: members[k]
  }

  // ----- Round trip -----

  /** No extension, at any depth, is named like a field beside it. */
  predicate Clean(v: Value, t: Type)
    requires Typed(v, t)
    decreases t
  {
    match t
    case Text => true
    case Bool => true
    case Int => true
    case Slice(elem) => forall i | 0 <= i < |v.items| :: Clean(v.items[i], elem)
    case MapOf(elem) => forall k | k in v.entries :: Clean(v.entries[k], elem)
    case Pointer(elem) => v.Nil? || Clean(v.target, elem)
    case Struct(fields, _) =>
      && v.extensions.Keys !! fields.Keys
      && forall k | k in fields :: Clean(v.fields[k], fields[k].typ)
  }

  predicate Returns(v: Value, t: Type)
    requires Typed(v, t)
  {
    Decode(Encode(v, t), t) == Some(v)
  }

  lemma NullOnlyForNil(v: Value, t: Type)
    requires Typed(v, t)
    ensures Encode(v, t).Null? <==> v.Nil?
  {
  }

  lemma EmptyIsZero(v: Value, t: Type)
    requires Typed(v, t) && Empty(v)
    ensures v == Zero(t) && Clean(v, t)
  {
  }

  /** Omitted are exactly the zero values of all types but structs. */
  lemma EmptyIff(v: Value, t: Type)
    requires Typed(v, t)
    ensures Empty(v) <==> !t.Struct? && v == Zero(t)
  {
  }

  /** What a struct is written as: its extensions, and each field that they do not hide and omitempty does not omit. */
  lemma EncodeMeans(v: Value, fields: map<string, Field>, form: Form)
    requires Typed(v, Struct(fields, form))
    ensures
      var j := Encode(v, Struct(fields, form));
      && j.Object?
      && (forall k :: k in j.members <==>
            || k in v.extensions
            || (k in fields && !(fields[k].omitEmpty && !fields[k].typ.Struct? && v.fields[k] == Zero(fields[k].typ))))
      && (forall k | k in v.extensions :: j.members[k] == v.extensions[k])
      && forall k | k in j.members && k !in v.extensions :: j.members[k] == Encode(v.fields[k], fields[k].typ)
  {
    forall k | k in fields
      ensures Empty(v.fields[k]) <==> !fields[k].typ.Struct? && v.fields[k] == Zero(fields[k].typ)
    {
      EmptyIff(v.fields[k], fields[k].typ);
    }
    hide Zero, Empty;
  }

  lemma SliceDecodesIff(items: seq<Json>, elem: Type, values: seq<Value>)
    ensures Decode(List(items), Slice(elem)) == Some(L(values)) <==>
            |values| == |items| && forall i | 0 <= i < |items| :: Decode(items[i], elem) == Some(values[i])
  {
    var r := Decode(List(items), Slice(elem));
    if r.Some? {
      assert forall i | 0 <= i < |items| :: Some(r.value.items[i]) == Decode(items[i], elem);
    }
    if |values| == |items| && forall i | 0 <= i < |items| :: Decode(items[i], elem) == Some(values[i]) {
      assert r.Some?;
      assert r.value.items == values;
    }
  }

  lemma SliceReturns(v: Value, elem: Type)
    requires Typed(v, Slice(elem))
    ensures Returns(v, Slice(elem)) <==> forall i | 0 <= i < |v.items| :: Returns(v.items[i], elem)
  {
    var items := Encode(v, Slice(elem)).items;
    assert |items| == |v.items| && forall i | 0 <= i < |items| :: items[i] == Encode(v.items[i], elem);
    hide Decode;
    SliceDecodesIff(items, elem, v.items);
  }

  lemma MapDecodesIff(members: map<string, Json>, elem: Type, entries: map<string, Value>)
    ensures Decode(Object(members), MapOf(elem)) == Some(M(entries)) <==>
            entries.Keys == members.Keys && forall k | k in members :: Decode(members[k], elem) == Some(entries[k])
  {
    var r := Decode(Object(members), MapOf(elem));
    if r.Some? {
      assert forall k | k in members :: Some(r.value.entries[k]) == Decode(members[k], elem);
    }
    if entries.Keys == members.Keys && forall k | k in members :: Decode(members[k], elem) == Some(entries[k]) {
      assert r.Some?;
      assert r.value.entries == entries;
    }
  }

  lemma MapReturns(v: Value, elem: Type)
    requires Typed(v, MapOf(elem))
    ensures Returns(v, MapOf(elem)) <==> forall k | k in v.entries :: Returns(v.entries[k], elem)
  {
    var members := Encode(v, MapOf(elem)).members;
    assert members.Keys == v.entries.Keys;
    assert forall k | k in members :: members[k] == Encode(v.entries[k], elem);
    MapDecodesIff(members, elem, v.entries);
  }

  /** The members that encoding a struct writes before its extensions. */
  function Written(v: Value, fields: map<string, Field>, form: Form): map<string, Json>
    requires Typed(v, Struct(fields, form))
  {
    map k | k in fields && !(fields[k].omitEmpty && Empty(v.fields[k])) :: Encode(v.fields[k], fields[k].typ)
  }

  lemma EmptyReturns(v: Value, t: Type)
    requires Typed(v, t) && Empty(v)
    ensures Returns(v, t)
  {
    if t.Slice? {
      SliceReturns(v, t.elem);
    } else if t.MapOf? {
      MapReturns(v, t.elem);
    }
  }

  /** The value that an object decodes to, member by member. */
  ghost predicate DecodesTo(members: map<string, Json>, fields: map<string, Field>, v: Value) {
    && v.S? && v.fields.Keys == fields.Keys
    && v.extensions == Unknown(members, fields.Keys)
    && forall k | k in fields ::
         if k in members then Decode(members[k], fields[k].typ) == Some(v.fields[k])
         else v.fields[k] == Zero(fields[k].typ)
  }

  /**
   When an object is accepted and what it becomes: every key is a field or an
   extension and never both, and only an extensible struct takes extensions.
   */
  lemma ObjectDecodesIff(members: map<string, Json>, fields: map<string, Field>, form: Form, v: Value)
    ensures Decode(Object(members), Struct(fields, form)) == Some(v) <==>
            DecodesTo(members, fields, v) && (form.Extended? || v.extensions == map[])
  {
    var t := Struct(fields, form);
    var r := Decode(Object(members), t);
    var rest := Recognized(members, fields.Keys);
    if r.Some? {
      assert forall k | k in fields ::
          r.value.fields[k] == if k in rest then Decode(rest[k], fields[k].typ).value else Zero(fields[k].typ);
      assert DecodesTo(members, fields, r.value);
    }
    if DecodesTo(members, fields, v) && (form.Extended? || v.extensions == map[]) {
      assert forall k | k in rest :: Decode(rest[k], fields[k].typ) == Some(v.fields[k]);
      assert r.Some?;
      assert r.value.fields == v.fields;
    }
  }

  /** One field comes back exactly if its member decodes to it, or it is zero where there is no member. */
  lemma FieldReturns(v: Value, fields: map<string, Field>, form: Form, k: string)
    requires Typed(v, Struct(fields, form)) && v.extensions.Keys !! fields.Keys && k in fields
    ensures
      var members := Encode(v, Struct(fields, form)).members;
      Returns(v.fields[k], fields[k].typ) <==>
      if k in members then Decode(members[k], fields[k].typ) == Some(v.fields[k])
      else v.fields[k] == Zero(fields[k].typ)
  {
    var written := Written(v, fields, form);
    assert Encode(v, Struct(fields, form)).members == written + v.extensions;
    hide Encode, Decode, Typed, Empty, Zero;
    if k !in written {
      EmptyIsZero(v.fields[k], fields[k].typ);
      EmptyReturns(v.fields[k], fields[k].typ);
    }
  }

  lemma StructReturns(v: Value, fields: map<string, Field>, form: Form)
    requires Typed(v, Struct(fields, form)) && v.extensions.Keys !! fields.Keys
    ensures Returns(v, Struct(fields, form)) <==> forall k | k in fields :: Returns(v.fields[k], fields[k].typ)
  {
    StructIsTyped(v, fields, form);
    hide Encode, Decode, Typed, Empty, Zero, Written, Returns;
    var members := Encode(v, Struct(fields, form)).members;
    forall k | k in fields
      ensures
        Returns(v.fields[k], fields[k].typ) <==>
        if k in members then Decode(members[k], fields[k].typ) == Some(v.fields[k])
        else v.fields[k] == Zero(fields[k].typ)
    {
      FieldReturns(v, fields, form, k);
    }
    OnlyExtensions(v, fields, form);
    ObjectDecodesIff(members, fields, form, v);
    StructReturnsBy(v, fields, form);
  }

  lemma StructIsTyped(v: Value, fields: map<string, Field>, form: Form)
    requires Typed(v, Struct(fields, form))
    ensures v.S? && v.fields.Keys == fields.Keys && (form.Extended? || v.extensions == map[])
    ensures Encode(v, Struct(fields, form)).Object? && forall k | k in fields :: Typed(v.fields[k], fields[k].typ)
  {
  }

  lemma StructReturnsBy(v: Value, fields: map<string, Field>, form: Form)
    requires Typed(v, Struct(fields, form)) && Encode(v, Struct(fields, form)).Object?
    ensures Returns(v, Struct(fields, form)) <==>
            Decode(Object(Encode(v, Struct(fields, form)).members), Struct(fields, form)) == Some(v)
  {
    hide Encode, Decode, Typed;
  }

  lemma OnlyExtensions(v: Value, fields: map<string, Field>, form: Form)
    requires Typed(v, Struct(fields, form)) && v.extensions.Keys !! fields.Keys
    ensures Unknown(Encode(v, Struct(fields, form)).members, fields.Keys) == v.extensions
  {
    assert Encode(v, Struct(fields, form)).members == Written(v, fields, form) + v.extensions;
    hide Encode, Decode, Typed, Empty, Zero;
  }

  /** What is written comes back exactly when no extension hides a field. */
  lemma {:induction false} RoundTripIff(v: Value, t: Type)
    requires Typed(v, t)
    ensures Returns(v, t) <==> Clean(v, t)
    decreases t
  {
    match t
    case Text =>
    case Bool =>
    case Int =>
    case Slice(elem) =>
      SliceReturns(v, elem);
      forall i | 0 <= i < |v.items|
        ensures Returns(v.items[i], elem) <==> Clean(v.items[i], elem)
      {
        RoundTripIff(v.items[i], elem);
      }
    case MapOf(elem) =>
      MapReturns(v, elem);
      forall k | k in v.entries
        ensures Returns(v.entries[k], elem) <==> Clean(v.entries[k], elem)
      {
        RoundTripIff(v.entries[k], elem);
      }
    case Pointer(elem) =>
      if v.Ref? {
        RoundTripIff(v.target, elem);
        NullOnlyForNil(v.target, elem);
      }
    case Struct(fields, form) =>
      if v.extensions.Keys !! fields.Keys {
        StructReturns(v, fields, form);
        forall k | k in fields
          ensures Returns(v.fields[k], fields[k].typ) <==> Clean(v.fields[k], fields[k].typ)
        {
          RoundTripIff(v.fields[k], fields[k].typ);
        }
      } else {
        HiddenFieldIsLost(v, fields, form);
      }
  }

  lemma HiddenFieldIsLost(v: Value, fields: map<string, Field>, form: Form)
    requires Typed(v, Struct(fields, form)) && !(v.extensions.Keys !! fields.Keys)
    ensures !Returns(v, Struct(fields, form))
  {
    var members := Encode(v, Struct(fields, form)).members;
    ObjectDecodesIff(members, fields, form, v);
  }
}
