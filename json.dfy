/** The JSON documents the pipeline encodes. Encoding itself (msgspec's
    `Encoder`) is not modelled: callers receive the serializer as a function
    from a document to its text. What is modelled is which members a document
    has, and in which order, including msgspec's `omit_defaults` rule. */
module Json {
  import opened Wrappers

  /** A floating-point value, kept as an opaque token: the pipeline only
      passes floats through. */
  datatype Float = Float(token: string)

  datatype Json =
    | JNull
    | JBool(b: bool)
    | JInt(i: int)
    | JFloat(f: Float)
    | JStr(s: string)
    | JArr(items: seq<Json>)
    | JObj(members: seq<Member>)

  type Member = (string, Json)

  /** The names of an object's members, in order. */
  function Keys(members: seq<Member>): (r: seq<string>)
    ensures |r| == |members|
    ensures forall i :: 0 <= i < |r| ==> r[i] == members[i].0
  {
    seq(|members|, i requires 0 <= i < |members| => members[i].0)
  }

  function OptStr(o: Option<string>): Json {
    if o.Some? then JStr(o.value) else JNull
  }

  function OptInt(o: Option<int>): Json {
    if o.Some? then JInt(o.value) else JNull
  }

  function OptBool(o: Option<bool>): Json {
    if o.Some? then JBool(o.value) else JNull
  }

  function OptFloat(o: Option<Float>): Json {
    if o.Some? then JFloat(o.value) else JNull
  }

  /** A member of a struct declared with `omit_defaults=True` whose default is
      `None`: present exactly when the value is not `None`. */
  function Omit(name: string, v: Json): (r: seq<Member>)
    ensures |r| <= 1
    ensures r == [] <==> v == JNull
    ensures r != [] ==> r[0] == (name, v)
  {
    if v == JNull then [] else [(name, v)]
  }

  /** The members of a struct declared with `omit_defaults=True` whose
      fields all default to `None`: the fields whose value is not `None`, in
      declaration order. */
  function Omits(fields: seq<Member>): (r: seq<Member>)
    ensures |r| <= |fields|
    decreases |fields|
  {
    if |fields| == 0 then []
    else Omit(fields[0].0, fields[0].1) + Omits(fields[1..])
  }

  /** The members kept are exactly the fields whose value is not `None`. */
  lemma {:induction false} OmitsMembers(fields: seq<Member>)
    ensures forall m :: m in Omits(fields) ==> m in fields && m.1 != JNull
    ensures forall m :: m in fields && m.1 != JNull ==> m in Omits(fields)
    decreases |fields|
  {
    if |fields| > 0 {
      OmitsMembers(fields[1..]);
      assert fields == [fields[0]] + fields[1..];
    }
  }

  /** Omitting works field by field: the kept members of a concatenation are
      those of its first part followed by those of its second, so the kept
      members stay in declaration order. */
  lemma {:induction false} OmitsAppend(a: seq<Member>, b: seq<Member>)
    ensures Omits(a + b) == Omits(a) + Omits(b)
    decreases |a|
  {
    if |a| == 0 {
      assert a + b == b;
    } else {
      assert (a + b)[1..] == a[1..] + b;
      OmitsAppend(a[1..], b);
    }
  }

  /** A field that occurs once among the fields is kept under its own name
      with its own value, unless that value is `None`. */
  lemma OmitsLookup(fields: seq<Member>, k: nat)
    requires k < |fields|
    requires forall i :: 0 <= i < |fields| && i != k ==> fields[i].0 != fields[k].0
    ensures forall v :: (fields[k].0, v) in Omits(fields) <==> v == fields[k].1 && v != JNull
  {
    OmitsMembers(fields);
  }

  /** A struct of five fields keeps each of them or not, in order. */
  lemma OmitsFive(a: Member, b: Member, c: Member, d: Member, e: Member)
    ensures Omits([a, b, c, d, e]) == Omit(a.0, a.1) + Omit(b.0, b.1) + Omit(c.0, c.1) + Omit(d.0, d.1) + Omit(e.0, e.1)
  {
    var ab := [a] + [b];
    var abc := ab + [c];
    var abcd := abc + [d];
    assert [a, b, c, d, e] == abcd + [e];
    OmitsAppend(abcd, [e]);
    OmitsAppend(abc, [d]);
    OmitsAppend(ab, [c]);
    OmitsAppend([a], [b]);
    OmitsSingle(a); OmitsSingle(b); OmitsSingle(c); OmitsSingle(d); OmitsSingle(e);
  }


  /** A single field is kept, as it is, exactly when it is not `None`. */
  lemma OmitsSingle(m: Member)
    ensures Omits([m]) == if m.1 == JNull then [] else [m]
  {
    assert [m][1..] == [];
  }
}
