/** The serializer as it runs: a packer that appends to its buffer, and the conversion loops of
    the reading side. */
module Serializer {
  import opened Values
  import opened Msgpack

  lemma EmptyTail(s: seq<Token>)
    ensures s + [] == s
  {
  }

  class Packer {
    const lib: Library
    var buffer: seq<Token>

    constructor (library: Library)
      ensures lib == library && buffer == []
    {
      lib := library;
      buffer := [];
    }

    method PackText(s: string) returns (ok: bool)
      modifies this
      ensures ok <==> |s| < LIMIT
      ensures ok ==> buffer == old(buffer) + PackString(s)
    {
      ok := |s| < LIMIT;
      if ok {
        buffer := buffer + [StrHead(|s| as uint32)];
        buffer := buffer + Letters(s);
      }
    }

    /** packValue: `ok` is false when the library throws because a string is too long. */
    method PackValue(v: Value) returns (ok: bool)
      modifies this
      ensures ok <==> StringsFit(v)
      ensures ok ==> buffer == old(buffer) + Pack(lib, v)
      decreases v
    {
      ok := true;
      match v {
        case Null => buffer := buffer + [Nil];
        case Bool(b) => buffer := buffer + [Boolean(b)];
        case Int(i) => buffer := buffer + [Integer(i as int)];
        case Double(d) => buffer := buffer + [if d in lib.integral then Integer(lib.integral[d]) else Float(d)];
        case Str(s) => ok := PackText(s);
        case Binary(b) =>
          buffer := buffer + [BinHead(Narrow(|b|))];
          buffer := buffer + Octets(b);
        case List(_) => ok := PackList(v);
        case Dict(_) => ok := PackDict(v);
      }
    }

    method PackList(v: Value) returns (ok: bool)
      requires v.List?
      modifies this
      ensures ok <==> StringsFit(v)
      ensures ok ==> buffer == old(buffer) + Pack(lib, v)
      decreases v, 0
    {
      buffer := buffer + [ArrayHead(Narrow(|v.items|))];
      ghost var goal := buffer + PackItems(lib, v, 0);
      assert goal == old(buffer) + Pack(lib, v);
      for i := 0 to |v.items|
        invariant forall j | 0 <= j < i :: StringsFit(v.items[j])
        invariant buffer + PackItems(lib, v, i) == goal
      {
        ghost var before := buffer;
        var fits := PackValue(v.items[i]);
        if !fits { return false; }
        Reassociate(before, Pack(lib, v.items[i]), PackItems(lib, v, i + 1), []);
        EmptyTail(PackItems(lib, v, i + 1));
      }
      EmptyTail(buffer);
      ok := true;
    }

    /** A dictionary is packed in the order of its keys. */
    method PackDict(v: Value) returns (ok: bool)
      requires v.Dict?
      modifies this
      ensures ok <==> StringsFit(v)
      ensures ok ==> buffer == old(buffer) + Pack(lib, v)
      decreases v, 0
    {
      buffer := buffer + [MapHead(Narrow(|v.fields|))];
      ghost var goal := buffer + PackFields(lib, v, v.fields.Keys);
      assert goal == old(buffer) + Pack(lib, v);
      var todo := v.fields.Keys;
      while todo != {}
        invariant todo <= v.fields.Keys
        invariant forall k | k in v.fields && k !in todo :: |k| < LIMIT && StringsFit(v.fields[k])
        invariant buffer + PackFields(lib, v, todo) == goal
        decreases todo
      {
        MinExists(todo);
        var k :| IsMin(k, todo);
        FirstIsUnique(todo, k);
        ghost var before := buffer;
        var fits := PackText(k);
        if !fits { return false; }
        fits := PackValue(v.fields[k]);
        if !fits { return false; }
        Reassociate(before, PackString(k), Pack(lib, v.fields[k]), PackFields(lib, v, todo - {k}));
        FieldsSplit(lib, v, todo, []);
        EmptyTail(PackFields(lib, v, todo));
        EmptyTail(PackFields(lib, v, todo - {k}));
        todo := todo - {k};
      }
      EmptyTail(buffer);
      ok := true;
    }
  }

  /** serialize: a fresh buffer, or the exception of a string that is too long. */
  method Serialize(lib: Library, v: Value) returns (r: Option<seq<Token>>)
    ensures r.Some? <==> StringsFit(v)
    ensures r.Some? ==> r.value == Pack(lib, v)
  {
    var packer := new Packer(lib);
    var ok := packer.PackValue(v);
    if ok {
      assert [] + Pack(lib, v) == Pack(lib, v);
      r := Some(packer.buffer);
    } else {
      r := None;
    }
  }

  /** valueFromObject. */
  method ValueFromObject(o: Object) returns (r: Option<Value>)
    ensures r == Convert(o)
    decreases o
  {
    match o {
      case NilObject => r := Some(Null);
      case BoolObject(b) => r := Some(Bool(b));
      case IntObject(i) => r := Some(Int(ToInt64(i)));
      case FloatObject(d) => r := Some(Double(d));
      case StrObject(s) => r := Some(Str(s));
      case BinObject(b) => r := Some(Binary(b));
      case ArrayObject(_) => r := ListFromArray(o);
      case MapObject(_) => r := DictFromMap(o);
      case ExtObject => r := Some(Null);
    }
  }

  method ListFromArray(o: Object) returns (r: Option<Value>)
    requires o.ArrayObject?
    ensures r == Convert(o)
    decreases o, 0
  {
    var list: seq<Value> := [];
    assert forall more: seq<Value> :: list + more == more;
    for i := 0 to |o.elements|
      invariant ConvertItems(o, 0) ==
                match ConvertItems(o, i) case None => None case Some(more) => Some(list + more)
    {
      var v := ValueFromObject(o.elements[i]);
      if v.None? { return None; }
      assert forall more :: list + ([v.value] + more) == (list + [v.value]) + more;
      list := list + [v.value];
    }
    assert list + [] == list;
    r := Some(List(list));
  }

  method DictFromMap(o: Object) returns (r: Option<Value>)
    requires o.MapObject?
    ensures r == Convert(o)
    decreases o, 0
  {
    var dict: map<string, Value> := map[];
    var p := 0;
    while p + 2 <= |o.cells|
      invariant p <= |o.cells| && ConvertCells(o, 0, map[]) == ConvertCells(o, p, dict)
    {
      var key := KeyOf(o.cells[p]);
      if key.None? { return None; }
      var v := ValueFromObject(o.cells[p + 1]);
      if v.None? { return None; }
      dict := dict[key.value := v.value];
      p := p + 2;
    }
    r := Some(Dict(dict));
  }

  /** deserialize, given what the library's parser makes of the buffer. */
  method Deserialize(tokens: seq<Token>) returns (v: Value)
    ensures v == Unpacked(tokens)
  {
    v := Null;
    if tokens == [] { return; }
    match Parse(tokens) {
      case Malformed =>
      case Parsed(o, _) =>
        var converted := ValueFromObject(o);
        if converted.Some? {
          v := converted.value;
        }
    }
  }
}
