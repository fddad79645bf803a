/** The MessagePack serializer.  The library that lays tokens out as bytes is outside: a buffer is
    the sequence of tokens the packer emits, with string and binary bodies spelled out. */
module Msgpack {
  import opened Values

  const LIMIT := 0x1_0000_0000

  newtype uint32 = x: int | 0 <= x < 0x1_0000_0000

  /** Headers carry a 32-bit count.  `Integer` is any integer the format can hold. */
  datatype Token =
    | Nil
    | Boolean(flag: bool)
    | Integer(number: int)
    | Float(double: Float64)
    | StrHead(size: uint32)
    | BinHead(size: uint32)
    | ArrayHead(size: uint32)
    | MapHead(size: uint32)
    | Letter(c: char)
    | Octet(b: byte)
    | Ext

  /** The doubles the library stores as integers because they are integral. */
  datatype Library = Library(integral: map<Float64, int>)

  /** static_cast<std::int64_t>. */
  function ToInt64(i: int): (r: int64)
    ensures -0x8000_0000_0000_0000 <= i < 0x8000_0000_0000_0000 ==> r as int == i
  {
    var low := i % 0x1_0000_0000_0000_0000;
    (if low < 0x8000_0000_0000_0000 then low else low - 0x1_0000_0000_0000_0000) as int64
  }

  /** A size_t passed where the library takes 32 bits. */
  function Narrow(n: nat): uint32 {
    (n % LIMIT) as uint32
  }

  // ----- the iteration order of a dictionary -----

  predicate IsMin(k: string, keys: set<string>) {
    k in keys && forall j | j in keys :: j == k || Less(k, j)
  }

  lemma {:induction false} LessIsTransitive(a: string, b: string, c: string)
    requires Less(a, b) && Less(b, c)
    ensures Less(a, c)
  {
    if |a| > 0 && a[0] == b[0] && b[0] == c[0] {
      LessIsTransitive(a[1..], b[1..], c[1..]);
    }
  }

  lemma {:induction false} MinExists(keys: set<string>)
    requires keys != {}
    ensures exists k :: IsMin(k, keys)
    decreases keys
  {
    var k :| k in keys;
    if keys - {k} == {} {
      assert keys == {k};
      assert IsMin(k, keys);
    } else {
      MinExists(keys - {k});
      var m :| IsMin(m, keys - {k});
      LessIsStrictTotal(k, m);
      if Less(k, m) {
        forall j | j in keys ensures j == k || Less(k, j) {
          if j != k && j != m {
            LessIsTransitive(k, m, j);
          }
        }
        assert IsMin(k, keys);
      } else {
        assert IsMin(m, keys);
      }
    }
  }

  ghost function First(keys: set<string>): (k: string)
    requires keys != {}
    ensures IsMin(k, keys)
  {
    MinExists(keys);
    var k :| IsMin(k, keys);
    k
  }

  lemma FirstIsUnique(keys: set<string>, k: string)
    requires IsMin(k, keys)
    ensures First(keys) == k
  {
    LessIsStrictTotal(k, First(keys));
  }

  // ----- packing -----

  function Letters(s: string): (r: seq<Token>)
    ensures |r| == |s|
  {
    seq(|s|, i requires 0 <= i < |s| => Letter(s[i]))
  }

  function Octets(s: seq<byte>): (r: seq<Token>)
    ensures |r| == |s|
  {
    seq(|s|, i requires 0 <= i < |s| => Octet(s[i]))
  }

  function PackString(s: string): seq<Token> {
    [StrHead(Narrow(|s|))] + Letters(s)
  }

  /** What packValue appends for a value whose strings all fit. */
  ghost function Pack(lib: Library, v: Value): seq<Token>
    decreases v
  {
    match v
    case Null => [Nil]
    case Bool(b) => [Boolean(b)]
    case Int(i) => [Integer(i as int)]
    case Double(d) => if d in lib.integral then [Integer(lib.integral[d])] else [Float(d)]
    case Str(s) => PackString(s)
    case Binary(b) => [BinHead(Narrow(|b|))] + Octets(b)
    case List(items) => [ArrayHead(Narrow(|items|))] + PackItems(lib, v, 0)
    case Dict(fields) => [MapHead(Narrow(|fields|))] + PackFields(lib, v, fields.Keys)
  }

  /** The elements of a list from a position on. */
  ghost function PackItems(lib: Library, v: Value, from: nat): seq<Token>
    requires v.List? && from <= |v.items|
    decreases v, |v.items| - from
  {
    if from == |v.items| then [] else Pack(lib, v.items[from]) + PackItems(lib, v, from + 1)
  }

  /** The entries of a dictionary for some of its keys, smallest key first. */
  ghost function PackFields(lib: Library, v: Value, keys: set<string>): seq<Token>
    requires v.Dict? && keys <= v.fields.Keys
    decreases v, keys
  {
    if keys == {} then []
    else
      var k := First(keys);
      PackString(k) + Pack(lib, v.fields[k]) + PackFields(lib, v, keys - {k})
  }

  /** Strings, keys included, that the library agrees to pack. */
  predicate StringsFit(v: Value) {
    match v
    case Str(s) => |s| < LIMIT
    case List(items) => forall i | 0 <= i < |items| :: StringsFit(items[i])
    case Dict(fields) => forall k | k in fields :: |k| < LIMIT && StringsFit(fields[k])
    case _ => true
  }

  /** Binaries, lists and dictionaries whose size survives the narrowing. */
  predicate SizesFit(v: Value) {
    match v
    case Binary(b) => |b| < LIMIT
    case List(items) => |items| < LIMIT && forall i | 0 <= i < |items| :: SizesFit(items[i])
    case Dict(fields) => |fields| < LIMIT && forall k | k in fields :: SizesFit(fields[k])
    case _ => true
  }

  predicate NoIntegralDoubles(lib: Library, v: Value) {
    match v
    case Double(d) => d !in lib.integral
    case List(items) => forall i | 0 <= i < |items| :: NoIntegralDoubles(lib, items[i])
    case Dict(fields) => forall k | k in fields :: NoIntegralDoubles(lib, fields[k])
    case _ => true
  }

  // ----- unpacking: the library's object tree -----

  /** A map's cells are its keys and values in turn. */
  datatype Object =
    | NilObject
    | BoolObject(flag: bool)
    | IntObject(number: int)
    | FloatObject(double: Float64)
    | StrObject(text: string)
    | BinObject(bytes: seq<byte>)
    | ArrayObject(elements: seq<Object>)
    | MapObject(cells: seq<Object>)
    | ExtObject

  datatype Parsed<T> = Parsed(result: T, rest: seq<Token>) | Malformed

  function ReadLetters(n: nat, tokens: seq<Token>): Parsed<string>
    decreases n
  {
    if n == 0 then Parsed("", tokens)
    else if tokens == [] || !tokens[0].Letter? then Malformed
    else
      match ReadLetters(n - 1, tokens[1..])
      case Malformed => Malformed
      case Parsed(s, rest) => Parsed([tokens[0].c] + s, rest)
  }

  function ReadOctets(n: nat, tokens: seq<Token>): Parsed<seq<byte>>
    decreases n
  {
    if n == 0 then Parsed([], tokens)
    else if tokens == [] || !tokens[0].Octet? then Malformed
    else
      match ReadOctets(n - 1, tokens[1..])
      case Malformed => Malformed
      case Parsed(s, rest) => Parsed([tokens[0].b] + s, rest)
  }

  /** msgpack::unpack: one object from the front of the buffer. */
  function Parse(tokens: seq<Token>): (r: Parsed<Object>)
    ensures r.Parsed? ==> |r.rest| < |tokens|
    decreases |tokens|, 0, 0
  {
    if tokens == [] then Malformed
    else
      var rest := tokens[1..];
      match tokens[0]
      case Nil => Parsed(NilObject, rest)
      case Boolean(b) => Parsed(BoolObject(b), rest)
      case Integer(i) => Parsed(IntObject(i), rest)
      case Float(d) => Parsed(FloatObject(d), rest)
      case Ext => Parsed(ExtObject, rest)
      case StrHead(n) =>
        (match ReadLetters(n as nat, rest)
         case Malformed => Malformed
         case Parsed(s, r) => LettersShrink(n as nat, rest); Parsed(StrObject(s), r))
      case BinHead(n) =>
        (match ReadOctets(n as nat, rest)
         case Malformed => Malformed
         case Parsed(s, r) => OctetsShrink(n as nat, rest); Parsed(BinObject(s), r))
      case ArrayHead(n) =>
        (match ParseMany(n as nat, rest)
         case Malformed => Malformed
         case Parsed(elements, r) => Parsed(ArrayObject(elements), r))
      case MapHead(n) =>
        (match ParseMany(2 * (n as nat), rest)
         case Malformed => Malformed
         case Parsed(cells, r) => Parsed(MapObject(cells), r))
      case _ => Malformed
  }

  function ParseMany(n: nat, tokens: seq<Token>): (r: Parsed<seq<Object>>)
    ensures r.Parsed? ==> |r.rest| <= |tokens| && |r.result| == n
    decreases |tokens|, 1, n
  {
    if n == 0 then Parsed([], tokens)
    else
      match Parse(tokens)
      case Malformed => Malformed
      case Parsed(o, rest) =>
        match ParseMany(n - 1, rest)
        case Malformed => Malformed
        case Parsed(more, end) => Parsed([o] + more, end)
  }

  lemma {:induction false} LettersShrink(n: nat, tokens: seq<Token>)
    ensures var r := ReadLetters(n, tokens); r.Parsed? ==> |r.rest| <= |tokens| && |r.result| == n
    decreases n
  {
    if n > 0 && tokens != [] {
      LettersShrink(n - 1, tokens[1..]);
    }
  }

  lemma {:induction false} OctetsShrink(n: nat, tokens: seq<Token>)
    ensures var r := ReadOctets(n, tokens); r.Parsed? ==> |r.rest| <= |tokens| && |r.result| == n
    decreases n
  {
    if n > 0 && tokens != [] {
      OctetsShrink(n - 1, tokens[1..]);
    }
  }

  // ----- unpacking: from objects to values -----

  function BytesAsText(bytes: seq<byte>): string {
    seq(|bytes|, i requires 0 <= i < |bytes| => bytes[i] as char)
  }

  /** Conversion of a map key to std::string: the library takes strings and binaries. */
  function KeyOf(o: Object): Option<string> {
    match o
    case StrObject(s) => Some(s)
    case BinObject(b) => Some(BytesAsText(b))
    case _ => None
  }

  /** valueFromObject; None when a key conversion throws. */
  function Convert(o: Object): Option<Value>
    decreases o
  {
    match o
    case NilObject => Some(Null)
    case BoolObject(b) => Some(Bool(b))
    case IntObject(i) => Some(Int(ToInt64(i)))
    case FloatObject(d) => Some(Double(d))
    case StrObject(s) => Some(Str(s))
    case BinObject(b) => Some(Binary(b))
    case ArrayObject(elements) =>
      (match ConvertItems(o, 0)
       case None => None
       case Some(items) => Some(List(items)))
    case MapObject(cells) =>
      (match ConvertCells(o, 0, map[])
       case None => None
       case Some(fields) => Some(Dict(fields)))
    case ExtObject => Some(Null)
  }

  function ConvertItems(o: Object, from: nat): (r: Option<seq<Value>>)
    requires o.ArrayObject? && from <= |o.elements|
    ensures r.Some? ==> |r.value| == |o.elements| - from
    decreases o, |o.elements| - from
  {
    if from == |o.elements| then Some([])
    else
      match Convert(o.elements[from])
      case None => None
      case Some(v) =>
        match ConvertItems(o, from + 1)
        case None => None
        case Some(more) => Some([v] + more)
  }

  /** Entries in order, a later one replacing an earlier one with the same key. */
  function ConvertCells(o: Object, from: nat, soFar: map<string, Value>): Option<map<string, Value>>
    requires o.MapObject? && from <= |o.cells|
    decreases o, |o.cells| - from
  {
    if from + 2 > |o.cells| then Some(soFar)
    else if KeyOf(o.cells[from]).None? then None
    else
      match Convert(o.cells[from + 1])
      case None => None
      case Some(v) => ConvertCells(o, from + 2, soFar[KeyOf(o.cells[from]).value := v])
  }

  /** deserialize: the first object of the buffer, Null when anything goes wrong. */
  function Unpacked(tokens: seq<Token>): Value {
    match Parse(tokens)
    case Malformed => Null
    case Parsed(o, _) => if Convert(o).Some? then Convert(o).value else Null
  }

  // ----- round trip -----

  /** The value a reader gets back: integral doubles have become integers. */
  function Stored(lib: Library, v: Value): Value {
    match v
    case Double(d) => if d in lib.integral then Int(ToInt64(lib.integral[d])) else v
    case List(items) => List(seq(|items|, i requires 0 <= i < |items| => Stored(lib, items[i])))
    case Dict(fields) => Dict(map k | k in fields :: Stored(lib, fields[k]))
    case _ => v
  }

  lemma {:induction false} LettersReadBack(s: string, suffix: seq<Token>)
    ensures ReadLetters(|s|, Letters(s) + suffix) == Parsed(s, suffix)
  {
    if s == "" {
      assert Letters(s) + suffix == suffix;
    } else {
      LettersReadBack(s[1..], suffix);
      assert (Letters(s) + suffix)[1..] == Letters(s[1..]) + suffix;
      assert [s[0]] + s[1..] == s;
    }
  }

  lemma {:induction false} OctetsReadBack(s: seq<byte>, suffix: seq<Token>)
    ensures ReadOctets(|s|, Octets(s) + suffix) == Parsed(s, suffix)
  {
    if s == [] {
      assert Octets(s) + suffix == suffix;
    } else {
      OctetsReadBack(s[1..], suffix);
      assert (Octets(s) + suffix)[1..] == Octets(s[1..]) + suffix;
      assert [s[0]] + s[1..] == s;
    }
  }

  lemma StringReadsBack(s: string, suffix: seq<Token>)
    requires |s| < LIMIT
    ensures Parse(PackString(s) + suffix) == Parsed(StrObject(s), suffix)
  {
    LettersReadBack(s, suffix);
    assert (PackString(s) + suffix)[1..] == Letters(s) + suffix;
  }

  ghost predicate ReadsBack(lib: Library, v: Value, tokens: seq<Token>, suffix: seq<Token>) {
    var r := Parse(tokens + suffix);
    r.Parsed? && r.rest == suffix && Convert(r.result) == Some(Stored(lib, v))
  }

  /** Packed and followed by anything, the value reads back. */
  ghost predicate Readable(lib: Library, v: Value) {
    forall suffix :: ReadsBack(lib, v, Pack(lib, v), suffix)
  }

  /** Reading what was packed gives the stored form of the value and leaves what follows it. */
  lemma {:induction false} PackReadsBack(lib: Library, v: Value, suffix: seq<Token>)
    requires StringsFit(v) && SizesFit(v)
    ensures ReadsBack(lib, v, Pack(lib, v), suffix)
    decreases v
  {
    match v {
      case Str(s) => StringReadsBack(s, suffix);
      case Binary(_) => BinaryReadsBack(lib, v, suffix);
      case List(items) =>
        forall i, more | 0 <= i < |items| ensures ReadsBack(lib, items[i], Pack(lib, items[i]), more) {
          PackReadsBack(lib, items[i], more);
        }
        ListReadsBack(lib, v, suffix);
      case Dict(fields) =>
        forall k, more | k in fields ensures ReadsBack(lib, fields[k], Pack(lib, fields[k]), more) {
          PackReadsBack(lib, fields[k], more);
        }
        DictReadsBack(lib, v, suffix);
      case _ => ScalarReadsBack(lib, v, suffix);
    }
  }

  lemma ScalarReadsBack(lib: Library, v: Value, suffix: seq<Token>)
    requires v.Null? || v.Bool? || v.Int? || v.Double?
    ensures ReadsBack(lib, v, Pack(lib, v), suffix)
  {
    assert (Pack(lib, v) + suffix)[1..] == suffix;
  }

  lemma BinaryReadsBack(lib: Library, v: Value, suffix: seq<Token>)
    requires v.Binary? && |v.bytes| < LIMIT
    ensures ReadsBack(lib, v, Pack(lib, v), suffix)
  {
    OctetsReadBack(v.bytes, suffix);
    assert (Pack(lib, v) + suffix)[1..] == Octets(v.bytes) + suffix;
  }

  lemma ListReadsBack(lib: Library, v: Value, suffix: seq<Token>)
    requires v.List? && |v.items| < LIMIT && forall i | 0 <= i < |v.items| :: Readable(lib, v.items[i])
    ensures ReadsBack(lib, v, Pack(lib, v), suffix)
  {
    ItemsReadBack(lib, v, 0, suffix);
    ListParses(lib, v, suffix);
    ListConverts(lib, v, Parse(Pack(lib, v) + suffix).result.elements);
  }

  lemma ListParses(lib: Library, v: Value, suffix: seq<Token>)
    requires v.List? && |v.items| < LIMIT
    requires ItemsRead(lib, v, 0, |v.items|, PackItems(lib, v, 0) + suffix, suffix)
    ensures var r := Parse(Pack(lib, v) + suffix);
            r.Parsed? && r.rest == suffix && r.result.ArrayObject? && ItemsOf(lib, v, 0, r.result.elements)
  {
    assert (Pack(lib, v) + suffix)[1..] == PackItems(lib, v, 0) + suffix;
  }

  lemma ListConverts(lib: Library, v: Value, objects: seq<Object>)
    requires v.List? && ItemsOf(lib, v, 0, objects)
    ensures Convert(ArrayObject(objects)) == Some(Stored(lib, v))
  {
    ItemsConvert(lib, v, objects, 0);
    assert Stored(lib, v).items[0..] == Stored(lib, v).items;
  }

  lemma DictReadsBack(lib: Library, v: Value, suffix: seq<Token>)
    requires v.Dict? && |v.fields| < LIMIT
    requires forall k | k in v.fields :: |k| < LIMIT && Readable(lib, v.fields[k])
    ensures ReadsBack(lib, v, Pack(lib, v), suffix)
  {
    FieldsReadBack(lib, v, v.fields.Keys, suffix);
    DictParses(lib, v, suffix);
    DictConverts(lib, v, Parse(Pack(lib, v) + suffix).result.cells);
  }

  lemma DictParses(lib: Library, v: Value, suffix: seq<Token>)
    requires v.Dict? && |v.fields| < LIMIT
    requires FieldsRead(lib, v, v.fields.Keys, 2 * |v.fields.Keys|, PackFields(lib, v, v.fields.Keys) + suffix, suffix)
    ensures var r := Parse(Pack(lib, v) + suffix);
            r.Parsed? && r.rest == suffix && r.result.MapObject? && CellsOf(lib, v, v.fields.Keys, r.result.cells)
  {
    DictSplit(lib, v, suffix);
    MapParses(Pack(lib, v) + suffix, |v.fields.Keys|, PackFields(lib, v, v.fields.Keys) + suffix, suffix);
  }

  lemma DictSplit(lib: Library, v: Value, suffix: seq<Token>)
    requires v.Dict? && |v.fields| < LIMIT
    ensures |v.fields.Keys| < LIMIT
    ensures Pack(lib, v) + suffix
            == [MapHead(Narrow(|v.fields.Keys|))] + (PackFields(lib, v, v.fields.Keys) + suffix)
  {
    assert |v.fields.Keys| == |v.fields|;
  }

  lemma DictConverts(lib: Library, v: Value, cells: seq<Object>)
    requires v.Dict? && CellsOf(lib, v, v.fields.Keys, cells)
    ensures Convert(MapObject(cells)) == Some(Stored(lib, v))
  {
    assert cells[0..] == cells;
    CellsConvert(lib, v, v.fields.Keys, cells, 0, map[]);
    assert map[] + StoredFields(lib, v, v.fields.Keys) == Stored(lib, v).fields;
  }

  lemma MapParses(tokens: seq<Token>, n: nat, body: seq<Token>, suffix: seq<Token>)
    requires n < LIMIT && tokens == [MapHead(n as uint32)] + body
    requires ParseMany(2 * n, body).Parsed? && ParseMany(2 * n, body).rest == suffix
    ensures Parse(tokens) == Parsed(MapObject(ParseMany(2 * n, body).result), suffix)
  {
    assert tokens[1..] == body;
  }

  /** Objects that hold the elements of a list from a position on. */
  ghost predicate ItemsOf(lib: Library, v: Value, from: nat, objects: seq<Object>)
    requires v.List? && from <= |v.items|
  {
    && |objects| == |v.items| - from
    && forall i | 0 <= i < |objects| :: Convert(objects[i]) == Some(Stored(lib, v.items[from + i]))
  }

  lemma ItemsGrow(lib: Library, v: Value, from: nat, o: Object, rest: seq<Object>)
    requires v.List? && from < |v.items| && Convert(o) == Some(Stored(lib, v.items[from]))
    requires ItemsOf(lib, v, from + 1, rest)
    ensures ItemsOf(lib, v, from, [o] + rest)
  {
    forall i | 0 <= i < |rest| + 1 ensures Convert(([o] + rest)[i]) == Some(Stored(lib, v.items[from + i])) {
      if i > 0 {
        assert ([o] + rest)[i] == rest[i - 1] && from + i == from + 1 + (i - 1);
      }
    }
  }

  lemma OneMore(n: nat, a: seq<Token>, b: seq<Token>, d: seq<Token>)
    requires n >= 1 && Parse(a).Parsed? && Parse(a).rest == b
    requires ParseMany(n - 1, b).Parsed? && ParseMany(n - 1, b).rest == d
    ensures ParseMany(n, a) == Parsed([Parse(a).result] + ParseMany(n - 1, b).result, d)
  {
  }

  ghost predicate ItemsRead(lib: Library, v: Value, from: nat, n: nat, tokens: seq<Token>, suffix: seq<Token>)
    requires v.List? && from <= |v.items|
  {
    var r := ParseMany(n, tokens);
    r.Parsed? && r.rest == suffix && ItemsOf(lib, v, from, r.result)
  }

  lemma {:induction false} ItemsReadBack(lib: Library, v: Value, from: nat, suffix: seq<Token>)
    requires v.List? && from <= |v.items| && forall i | 0 <= i < |v.items| :: Readable(lib, v.items[i])
    ensures ItemsRead(lib, v, from, |v.items| - from, PackItems(lib, v, from) + suffix, suffix)
    decreases |v.items| - from
  {
    if from == |v.items| {
      assert PackItems(lib, v, from) + suffix == suffix;
    } else {
      var more := PackItems(lib, v, from + 1) + suffix;
      ItemsReadBack(lib, v, from + 1, suffix);
      assert ReadsBack(lib, v.items[from], Pack(lib, v.items[from]), more) by {
        assert Readable(lib, v.items[from]);
      }
      ItemsStep(lib, v, from, |v.items| - from, Pack(lib, v.items[from]), more, suffix);
      FirstItemFirst(lib, v, from, suffix);
    }
  }

  lemma FirstItemFirst(lib: Library, v: Value, from: nat, suffix: seq<Token>)
    requires v.List? && from < |v.items|
    ensures PackItems(lib, v, from) + suffix == Pack(lib, v.items[from]) + (PackItems(lib, v, from + 1) + suffix)
  {
  }

  /** One element in front of the others. */
  lemma ItemsStep(lib: Library, v: Value, from: nat, n: nat, one: seq<Token>, more: seq<Token>, suffix: seq<Token>)
    requires v.List? && from < |v.items| && n >= 1
    requires ReadsBack(lib, v.items[from], one, more)
    requires ItemsRead(lib, v, from + 1, n - 1, more, suffix)
    ensures ItemsRead(lib, v, from, n, one + more, suffix)
  {
    OneMore(n, one + more, more, suffix);
    ItemsGrow(lib, v, from, Parse(one + more).result, ParseMany(n - 1, more).result);
  }

  lemma {:induction false} ItemsConvert(lib: Library, v: Value, objects: seq<Object>, from: nat)
    requires v.List? && from <= |objects| == |v.items| && ItemsOf(lib, v, 0, objects)
    ensures ConvertItems(ArrayObject(objects), from) == Some(Stored(lib, v).items[from..])
    decreases |objects| - from
  {
    if from < |objects| {
      ItemsConvert(lib, v, objects, from + 1);
      assert ArrayObject(objects).elements[from] == objects[from];
      assert Stored(lib, v).items[from..] == [Stored(lib, v.items[from])] + Stored(lib, v).items[from + 1..];
    } else {
      assert Stored(lib, v).items[from..] == [];
    }
  }

  /** Cells that hold the entries of some keys, smallest key first. */
  ghost predicate CellsOf(lib: Library, v: Value, keys: set<string>, cells: seq<Object>)
    requires v.Dict? && keys <= v.fields.Keys
    decreases keys
  {
    if keys == {} then cells == []
    else
      var k := First(keys);
      && |cells| >= 2 && KeyOf(cells[0]) == Some(k)
      && Convert(cells[1]) == Some(Stored(lib, v.fields[k]))
      && CellsOf(lib, v, keys - {k}, cells[2..])
  }

  ghost predicate FieldsRead(lib: Library, v: Value, keys: set<string>, n: nat, tokens: seq<Token>, suffix: seq<Token>)
    requires v.Dict? && keys <= v.fields.Keys
  {
    var r := ParseMany(n, tokens);
    r.Parsed? && r.rest == suffix && CellsOf(lib, v, keys, r.result)
  }

  lemma {:induction false} FieldsReadBack(lib: Library, v: Value, keys: set<string>, suffix: seq<Token>)
    requires v.Dict? && keys <= v.fields.Keys
    requires forall k | k in keys :: |k| < LIMIT && Readable(lib, v.fields[k])
    ensures FieldsRead(lib, v, keys, 2 * |keys|, PackFields(lib, v, keys) + suffix, suffix)
    decreases keys
  {
    if keys == {} {
      assert PackFields(lib, v, keys) + suffix == suffix;
    } else {
      var k := First(keys);
      var more := PackFields(lib, v, keys - {k}) + suffix;
      FieldsReadBack(lib, v, keys - {k}, suffix);
      assert 2 * |keys - {k}| == 2 * |keys| - 2;
      assert Readable(lib, v.fields[k]);
      FieldsStep(lib, v, keys, 2 * |keys|, Pack(lib, v.fields[k]), more, suffix);
      FieldsSplit(lib, v, keys, suffix);
    }
  }

  /** One entry in front of the others. */
  lemma FieldsStep(lib: Library, v: Value, keys: set<string>, n: nat, one: seq<Token>, more: seq<Token>, suffix: seq<Token>)
    requires v.Dict? && keys <= v.fields.Keys && keys != {} && n >= 2 && |First(keys)| < LIMIT
    requires ReadsBack(lib, v.fields[First(keys)], one, more)
    requires FieldsRead(lib, v, keys - {First(keys)}, n - 2, more, suffix)
    ensures FieldsRead(lib, v, keys, n, PackString(First(keys)) + (one + more), suffix)
  {
    var all := PackString(First(keys)) + (one + more);
    StringReadsBack(First(keys), one + more);
    TwoMore(n, all, one + more, more, suffix);
    CellsGrow(lib, v, keys, Parse(all).result, Parse(one + more).result, ParseMany(n - 2, more).result);
  }

  lemma FieldsSplit(lib: Library, v: Value, keys: set<string>, suffix: seq<Token>)
    requires v.Dict? && keys <= v.fields.Keys && keys != {}
    ensures var k := First(keys);
            PackFields(lib, v, keys) + suffix
            == PackString(k) + (Pack(lib, v.fields[k]) + (PackFields(lib, v, keys - {k}) + suffix))
  {
    var k := First(keys);
    assert PackFields(lib, v, keys) == PackString(k) + Pack(lib, v.fields[k]) + PackFields(lib, v, keys - {k});
    Reassociate(PackString(k), Pack(lib, v.fields[k]), PackFields(lib, v, keys - {k}), suffix);
  }

  lemma Reassociate(a: seq<Token>, b: seq<Token>, c: seq<Token>, d: seq<Token>)
    ensures a + b + c + d == a + (b + (c + d))
  {
  }

  lemma CellsGrow(lib: Library, v: Value, keys: set<string>, key: Object, value: Object, rest: seq<Object>)
    requires v.Dict? && keys <= v.fields.Keys && keys != {}
    requires KeyOf(key) == Some(First(keys)) && Convert(value) == Some(Stored(lib, v.fields[First(keys)]))
    requires CellsOf(lib, v, keys - {First(keys)}, rest)
    ensures CellsOf(lib, v, keys, [key, value] + rest)
  {
    assert ([key, value] + rest)[2..] == rest;
  }

  /** Parsing two objects and then the rest. */
  lemma TwoMore(n: nat, a: seq<Token>, b: seq<Token>, c: seq<Token>, d: seq<Token>)
    requires n >= 2
    requires Parse(a).Parsed? && Parse(a).rest == b && Parse(b).Parsed? && Parse(b).rest == c
    requires ParseMany(n - 2, c).Parsed? && ParseMany(n - 2, c).rest == d
    ensures ParseMany(n, a) == Parsed([Parse(a).result, Parse(b).result] + ParseMany(n - 2, c).result, d)
  {
    var x, y, z := Parse(a).result, Parse(b).result, ParseMany(n - 2, c).result;
    OneMore(n - 1, b, c, d);
    assert [x] + ([y] + z) == [x, y] + z;
  }

  /** The stored entries of some keys. */
  function StoredFields(lib: Library, v: Value, keys: set<string>): map<string, Value>
    requires v.Dict?
  {
    map k | k in v.fields && k in keys :: Stored(lib, v.fields[k])
  }

  lemma StoredFieldsStep(lib: Library, v: Value, keys: set<string>, k: string, soFar: map<string, Value>)
    requires v.Dict? && k in v.fields && k in keys
    ensures soFar[k := Stored(lib, v.fields[k])] + StoredFields(lib, v, keys - {k})
            == soFar + StoredFields(lib, v, keys)
  {
    var a, b := soFar[k := Stored(lib, v.fields[k])] + StoredFields(lib, v, keys - {k}), soFar + StoredFields(lib, v, keys);
    assert a.Keys == b.Keys;
    assert forall j | j in a :: a[j] == b[j];
  }

  lemma {:induction false} CellsConvert(lib: Library, v: Value, keys: set<string>, cells: seq<Object>,
                                        from: nat, soFar: map<string, Value>)
    requires v.Dict? && keys <= v.fields.Keys && from <= |cells| && CellsOf(lib, v, keys, cells[from..])
    ensures ConvertCells(MapObject(cells), from, soFar)
            == Some(soFar + StoredFields(lib, v, keys))
    decreases keys
  {
    if keys == {} {
      assert soFar + StoredFields(lib, v, keys) == soFar;
    } else {
      var k := First(keys);
      assert cells[from..][2..] == cells[from + 2..];
      var next := soFar[k := Stored(lib, v.fields[k])];
      assert cells[from..][0] == cells[from] && cells[from..][1] == cells[from + 1];
      assert ConvertCells(MapObject(cells), from, soFar) == ConvertCells(MapObject(cells), from + 2, next);
      CellsConvert(lib, v, keys - {k}, cells, from + 2, next);
      StoredFieldsStep(lib, v, keys, k, soFar);
    }
  }

  /** Only integral doubles are stored as something else. */
  lemma {:induction false} StoredIsSame(lib: Library, v: Value)
    ensures Stored(lib, v) == v <==> NoIntegralDoubles(lib, v)
    decreases v
  {
    match v {
      case List(items) =>
        forall i | 0 <= i < |items| ensures Stored(lib, items[i]) == items[i] <==> NoIntegralDoubles(lib, items[i]) {
          StoredIsSame(lib, items[i]);
        }
        if Stored(lib, v) == v {
          assert forall i | 0 <= i < |items| :: Stored(lib, v).items[i] == Stored(lib, items[i]);
        }
      case Dict(fields) =>
        forall k | k in fields ensures Stored(lib, fields[k]) == fields[k] <==> NoIntegralDoubles(lib, fields[k]) {
          StoredIsSame(lib, fields[k]);
        }
        if Stored(lib, v) == v {
          assert forall k | k in fields :: Stored(lib, v).fields[k] == Stored(lib, fields[k]);
        }
      case _ =>
    }
  }

  // ----- sizes that were narrowed never come back -----

  /** Objects a buffer can hold: no count exceeds 32 bits. */
  predicate Countable(o: Object) {
    match o
    case BinObject(b) => |b| < LIMIT
    case ArrayObject(elements) => |elements| < LIMIT && forall i | 0 <= i < |elements| :: Countable(elements[i])
    case MapObject(cells) => |cells| < 2 * LIMIT && forall i | 0 <= i < |cells| :: Countable(cells[i])
    case _ => true
  }

  lemma {:induction false} ParsedIsCountable(tokens: seq<Token>)
    ensures Parse(tokens).Parsed? ==> Countable(Parse(tokens).result)
    decreases |tokens|, 0, 0
  {
    if Parse(tokens).Parsed? {
      var rest := tokens[1..];
      match tokens[0] {
        case BinHead(n) => OctetsShrink(n as nat, rest);
        case ArrayHead(n) => ManyAreCountable(n as nat, rest);
        case MapHead(n) => ManyAreCountable(2 * (n as nat), rest);
        case _ =>
      }
    }
  }

  lemma {:induction false} ManyAreCountable(n: nat, tokens: seq<Token>)
    ensures var r := ParseMany(n, tokens);
            r.Parsed? ==> forall i | 0 <= i < |r.result| :: Countable(r.result[i])
    decreases |tokens|, 1, n
  {
    if n > 0 && ParseMany(n, tokens).Parsed? {
      ParsedIsCountable(tokens);
      ManyAreCountable(n - 1, Parse(tokens).rest);
    }
  }

  lemma {:induction false} CountableConverts(o: Object)
    requires Countable(o)
    ensures Convert(o).Some? ==> SizesFit(Convert(o).value)
    decreases o
  {
    match o {
      case ArrayObject(elements) =>
        CountableItems(o, 0);
      case MapObject(cells) =>
        CountableCells(o, 0, map[]);
        if ConvertCells(o, 0, map[]).Some? {
          assert SizesFit(Dict(ConvertCells(o, 0, map[]).value));
        }
      case _ =>
    }
  }

  lemma {:induction false} CountableItems(o: Object, from: nat)
    requires o.ArrayObject? && Countable(o) && from <= |o.elements|
    ensures var r := ConvertItems(o, from); r.Some? ==> forall i | 0 <= i < |r.value| :: SizesFit(r.value[i])
    decreases o, |o.elements| - from
  {
    if from < |o.elements| && ConvertItems(o, from).Some? {
      CountableConverts(o.elements[from]);
      CountableItems(o, from + 1);
    }
  }

  lemma {:induction false} CountableCells(o: Object, from: nat, soFar: map<string, Value>)
    requires o.MapObject? && Countable(o) && from <= |o.cells| && 2 * |soFar| <= from
    requires forall k | k in soFar :: SizesFit(soFar[k])
    ensures var r := ConvertCells(o, from, soFar);
            r.Some? ==> |r.value| < LIMIT && forall k | k in r.value :: SizesFit(r.value[k])
    decreases o, |o.cells| - from
  {
    if from + 2 <= |o.cells| && ConvertCells(o, from, soFar).Some? {
      CountableConverts(o.cells[from + 1]);
      var k := KeyOf(o.cells[from]).value;
      var next := soFar[k := Convert(o.cells[from + 1]).value];
      assert next.Keys == soFar.Keys + {k};
      assert |next.Keys| <= |soFar.Keys| + 1;
      CountableCells(o, from + 2, next);
    }
  }

  /** Nothing read from a buffer has a size beyond 32 bits. */
  lemma UnpackedSizesFit(tokens: seq<Token>)
    ensures SizesFit(Unpacked(tokens))
  {
    ParsedIsCountable(tokens);
    if Parse(tokens).Parsed? {
      CountableConverts(Parse(tokens).result);
    }
  }

  /** The serializer's promise, with its exact condition: a value survives the trip if and only if
      its sizes fit into 32 bits and it holds no double the library stores as an integer. */
  lemma RoundTripsExactly(lib: Library, v: Value)
    requires StringsFit(v)
    ensures Unpacked(Pack(lib, v)) == v <==> SizesFit(v) && NoIntegralDoubles(lib, v)
  {
    UnpackedSizesFit(Pack(lib, v));
    if SizesFit(v) {
      PackReadsBack(lib, v, []);
      assert Pack(lib, v) + [] == Pack(lib, v);
      StoredIsSame(lib, v);
    }
  }

  /** So different values never share an encoding. */
  lemma PackIsInjective(lib: Library, v: Value, w: Value)
    requires StringsFit(v) && StringsFit(w) && SizesFit(v) && SizesFit(w)
    requires NoIntegralDoubles(lib, v) && NoIntegralDoubles(lib, w)
    requires Pack(lib, v) == Pack(lib, w)
    ensures v == w
  {
    RoundTripsExactly(lib, v);
    RoundTripsExactly(lib, w);
  }
}
