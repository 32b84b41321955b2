/** A receiver's view of AMF0 (AMF0 specification, sections 2.2 to 2.5 and 2.7): which
    values a sequence of bytes stands for, and what the commands of the client say. */
module Amf0Values {
  import opened Bytes
  import opened Amf0
  import opened Doubles
  import opened Commands

  datatype Value = Number(x: real) | Boolean(b: bool) | Text(s: seq<byte>) | Object(ps: seq<Property>) | Null

  datatype Property = Property(name: seq<byte>, value: Value)

  datatype OneValue = OneValue(value: Value, used: nat)

  datatype SomeProperties = SomeProperties(ps: seq<Property>, used: nat)

  /** One value, by its marker.  A number must be finite. */
  function ReadValue(d: seq<byte>): (r: Option<OneValue>)
    ensures r.Some? ==> 1 <= r.value.used <= |d|
    decreases |d|, 1
  {
    if d == [] then None
    else if d[0] == 0 then
      if |d| < 9 || ValueOf(d[1..9]) == None then None else Some(OneValue(Number(ValueOf(d[1..9]).value), 9))
    else if d[0] == 1 then if |d| < 2 then None else Some(OneValue(Boolean(d[1] != 0), 2))
    else if d[0] == 2 then
      if |d| < 3 || |d| < Be16(d, 1) + 3 then None else Some(OneValue(Text(d[3..Be16(d, 1) + 3]), Be16(d, 1) + 3))
    else if d[0] == 3 then
      match ReadProperties(d[1..])
      case None => None
      case Some(r) => Some(OneValue(Object(r.ps), r.used + 1))
    else if d[0] == 5 then Some(OneValue(Null, 1))
    else None
  }

  /** Named values up to an empty name and the object-end marker. */
  function ReadProperties(d: seq<byte>): (r: Option<SomeProperties>)
    ensures r.Some? ==> r.value.used <= |d|
    decreases |d|, 0
  {
    if |d| < 3 then None
    else
      var n := Be16(d, 0);
      if n == 0 then if d[2] == 9 then Some(SomeProperties([], 3)) else None
      else if |d| < n + 2 then None
      else
        match ReadValue(d[n + 2..])
        case None => None
        case Some(v) => InFront([Property(d[2..n + 2], v.value)], n + 2 + v.used, ReadProperties(d[n + 2..][v.used..]))
  }

  function InFront(ps: seq<Property>, used: nat, r: Option<SomeProperties>): Option<SomeProperties> {
    match r
    case None => None
    case Some(more) => Some(SomeProperties(ps + more.ps, used + more.used))
  }

  /** A command: values up to the end of the message. */
  function ReadValues(d: seq<byte>): Option<seq<Value>>
    decreases |d|
  {
    if d == [] then Some([])
    else
      match ReadValue(d)
      case None => None
      case Some(v) => Before([v.value], ReadValues(d[v.used..]))
  }

  function Before(vs: seq<Value>, r: Option<seq<Value>>): Option<seq<Value>> {
    match r
    case None => None
    case Some(more) => Some(vs + more)
  }

  // ---------- what the writers put down ----------

  /** In front of anything, d is read as these values, or as these properties. */
  ghost predicate Says(d: seq<byte>, vs: seq<Value>) {
    forall rest {:trigger ReadValues(d + rest)} :: ReadValues(d + rest) == Before(vs, ReadValues(rest))
  }

  ghost predicate Lists(d: seq<byte>, ps: seq<Property>) {
    forall rest {:trigger ReadProperties(d + rest)} :: ReadProperties(d + rest) == InFront(ps, |d|, ReadProperties(rest))
  }

  ghost predicate IsValue(d: seq<byte>, v: Value) {
    d != [] && forall rest {:trigger ReadValue(d + rest)} :: ReadValue(d + rest) == Some(OneValue(v, |d|))
  }

  lemma NumberIsValue(bits: seq<byte>)
    requires |bits| == 8 && ValueOf(bits).Some?
    ensures IsValue(NumberBytes(bits), Number(ValueOf(bits).value))
  {
    hide ValueOf;
    forall rest
      ensures ReadValue(NumberBytes(bits) + rest) == Some(OneValue(Number(ValueOf(bits).value), 9))
    {
      assert (NumberBytes(bits) + rest)[1..9] == bits;
    }
  }

  lemma BooleanIsValue(b: bool)
    ensures IsValue(BoolBytes(b), Boolean(b))
  {
  }

  lemma TextIsValue(s: seq<byte>)
    requires |s| < 0x1_0000
    ensures IsValue(StringBytes(s), Text(s))
  {
    forall rest
      ensures ReadValue(StringBytes(s) + rest) == Some(OneValue(Text(s), |s| + 3))
    {
      var d := StringBytes(s) + rest;
      assert d[1..3] == ToBe16(|s|);
      assert d[3..|s| + 3] == s;
    }
  }

  lemma NullIsValue()
    ensures IsValue(NULL, Null)
  {
  }

  lemma ObjectIsValue(d: seq<byte>, ps: seq<Property>)
    requires Lists(d, ps)
    ensures IsValue(OBJECT_BEGIN + d + OBJECT_END, Object(ps))
  {
    hide Lists, InFront;
    forall rest
      ensures ReadValue(OBJECT_BEGIN + d + OBJECT_END + rest) == Some(OneValue(Object(ps), |d| + 4))
    {
      var all := OBJECT_BEGIN + d + OBJECT_END + rest;
      assert all[1..] == d + (OBJECT_END + rest);
      ListedInFront(d, ps, OBJECT_END + rest);
      EndOfObject(rest);
      assert InFront(ps, |d|, Some(SomeProperties([], 3))) == Some(SomeProperties(ps + [], |d| + 3)) by {
        Found(ps, |d|, SomeProperties([], 3));
      }
      assert ps + [] == ps;
    }
  }

  lemma Found(ps: seq<Property>, used: nat, more: SomeProperties)
    ensures InFront(ps, used, Some(more)) == Some(SomeProperties(ps + more.ps, used + more.used))
  {
  }

  lemma ListedInFront(d: seq<byte>, ps: seq<Property>, rest: seq<byte>)
    requires Lists(d, ps)
    ensures ReadProperties(d + rest) == InFront(ps, |d|, ReadProperties(rest))
  {
  }

  lemma EndOfObject(rest: seq<byte>)
    ensures ReadProperties(OBJECT_END + rest) == Some(SomeProperties([], 3))
  {
    var d := OBJECT_END + rest;
    assert d[0] == 0 && d[1] == 0 && d[2] == 9;
  }

  lemma PropertyLists(name: seq<byte>, d: seq<byte>, v: Value)
    requires 0 < |name| < 0x1_0000 && IsValue(d, v)
    ensures Lists(NameBytes(name) + d, [Property(name, v)])
  {
    hide ReadProperties, ReadValue, NameBytes;
    forall rest
      ensures ReadProperties(NameBytes(name) + d + rest) ==
              InFront([Property(name, v)], |NameBytes(name) + d|, ReadProperties(rest))
    {
      ValueInFront(d, v, rest);
      PropertyInFront(name, d, v, rest);
    }
  }

  lemma PropertyInFront(name: seq<byte>, d: seq<byte>, v: Value, rest: seq<byte>)
    requires 0 < |name| < 0x1_0000 && d != [] && ReadValue(d + rest) == Some(OneValue(v, |d|))
    ensures ReadProperties(NameBytes(name) + d + rest) ==
            InFront([Property(name, v)], |name| + 2 + |d|, ReadProperties(rest))
  {
    hide ReadValue, InFront;
    var all := NameBytes(name) + d + rest;
    assert all[..2] == ToBe16(|name|);
    assert all[2..|name| + 2] == name && all[|name| + 2..] == d + rest && (d + rest)[|d|..] == rest;
    PropertyStep(all, name, v, |d|);
  }

  lemma PropertyStep(d: seq<byte>, name: seq<byte>, v: Value, used: nat)
    requires |d| >= 3 && Be16(d, 0) == |name| > 0 && |d| >= |name| + 2 && d[2..|name| + 2] == name
    requires ReadValue(d[|name| + 2..]) == Some(OneValue(v, used))
    ensures ReadProperties(d) == InFront([Property(name, v)], |name| + 2 + used, ReadProperties(d[|name| + 2..][used..]))
  {
    hide ReadValue, InFront;
  }

  lemma ValueInFront(d: seq<byte>, v: Value, rest: seq<byte>)
    requires IsValue(d, v)
    ensures d != [] && ReadValue(d + rest) == Some(OneValue(v, |d|))
  {
  }

  lemma ListsBoth(a: seq<byte>, ps: seq<Property>, b: seq<byte>, qs: seq<Property>)
    requires Lists(a, ps) && Lists(b, qs)
    ensures Lists(a + b, ps + qs)
  {
    hide ReadProperties;
    forall rest
      ensures ReadProperties(a + b + rest) == InFront(ps + qs, |a + b|, ReadProperties(rest))
    {
      assert a + b + rest == a + (b + rest);
      ListedInFront(a, ps, b + rest);
      ListedInFront(b, qs, rest);
      if ReadProperties(rest).Some? {
        var more := ReadProperties(rest).value.ps;
        assert ps + (qs + more) == (ps + qs) + more;
      }
    }
  }

  lemma SaysOne(d: seq<byte>, v: Value)
    requires IsValue(d, v)
    ensures Says(d, [v])
  {
    hide IsValue;
    forall rest
      ensures ReadValues(d + rest) == Before([v], ReadValues(rest))
    {
      ValueInFront(d, v, rest);
      assert (d + rest)[|d|..] == rest;
    }
  }

  lemma SaysBoth(a: seq<byte>, vs: seq<Value>, b: seq<byte>, ws: seq<Value>)
    requires Says(a, vs) && Says(b, ws)
    ensures Says(a + b, vs + ws)
  {
    hide ReadValues;
    forall rest
      ensures ReadValues(a + b + rest) == Before(vs + ws, ReadValues(rest))
    {
      assert a + b + rest == a + (b + rest);
      if ReadValues(rest).Some? {
        assert vs + (ws + ReadValues(rest).value) == (vs + ws) + ReadValues(rest).value;
      }
    }
  }

  lemma SaysAll(d: seq<byte>, vs: seq<Value>)
    requires Says(d, vs)
    ensures ReadValues(d) == Some(vs)
  {
    assert d + [] == d && vs + [] == vs && ReadValues([]) == Some([]);
  }
}
