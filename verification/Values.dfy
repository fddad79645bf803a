/** The dynamically typed values that every message of the library is made of, and the few
    string operations the protocols depend on. */
module Values {

  datatype Option<+T> = None | Some(value: T)

  newtype byte = x: int | 0 <= x < 0x100
  newtype int64 = x: int | -0x8000_0000_0000_0000 <= x < 0x8000_0000_0000_0000

  /** A double is carried around but never inspected: only its bit pattern matters. */
  datatype Float64 = Float64(bits: bv64)

  /** The class Value: one of eight alternatives.  A dictionary is an ordered map from
      strings, so it is a map here and its iteration order is made explicit where used. */
  datatype Value =
    | Null
    | Bool(flag: bool)
    | Int(number: int64)
    | Double(double: Float64)
    | Str(text: string)
    | Binary(bytes: seq<byte>)
    | List(items: seq<Value>)
    | Dict(fields: map<string, Value>)

  /** The string stored under `key`, when there is one and it is a string. */
  function StringField(fields: map<string, Value>, key: string): Option<string> {
    if key in fields && fields[key].Str? then Some(fields[key].text) else None
  }

  /** A map without one of its keys. */
  function Omit<K, V>(m: map<K, V>, key: K): map<K, V> {
    map k | k in m && k != key :: m[k]
  }

  function One(b: bool): nat {
    if b then 1 else 0
  }

  /** std::string's operator<: lexicographic, a proper prefix coming first. */
  predicate Less(a: string, b: string) {
    |b| > 0 && (|a| == 0 || a[0] < b[0] || (a[0] == b[0] && Less(a[1..], b[1..])))
  }

  /** Of two different identifiers exactly one is the larger. */
  lemma {:induction false} LessIsStrictTotal(a: string, b: string)
    ensures !(Less(a, b) && Less(b, a))
    ensures a == b || Less(a, b) || Less(b, a)
    ensures Less(a, b) ==> a != b
  {
    if |a| > 0 && |b| > 0 && a[0] == b[0] {
      LessIsStrictTotal(a[1..], b[1..]);
      if a[1..] == b[1..] {
        assert a == [a[0]] + a[1..] == b;
      }
    }
  }

  /** The first difference decides: a smaller character there, or one string ending first. */
  lemma {:induction false} LessExactly(a: string, b: string)
    ensures Less(a, b)
            <==> exists i :: 0 <= i <= |a| && i < |b| && a[..i] == b[..i] && (i == |a| || a[i] < b[i])
  {
    if |b| > 0 && (|a| == 0 || a[0] < b[0]) {
      assert a[..0] == b[..0];
    } else if |a| > 0 && |b| > 0 && a[0] == b[0] {
      LessExactly(a[1..], b[1..]);
      if i :| 0 <= i <= |a[1..]| && i < |b[1..]| && a[1..][..i] == b[1..][..i] && (i == |a[1..]| || a[1..][i] < b[1..][i]) {
        assert a[..i + 1] == [a[0]] + a[1..][..i] == [b[0]] + b[1..][..i] == b[..i + 1];
        assert i + 1 == |a| || a[i + 1] < b[i + 1];
      }
      if i :| 0 <= i <= |a| && i < |b| && a[..i] == b[..i] && (i == |a| || a[i] < b[i]) {
        assert i > 0;
        assert a[1..][..i - 1] == a[..i][1..] == b[..i][1..] == b[1..][..i - 1];
        assert i - 1 == |a[1..]| || a[1..][i - 1] < b[1..][i - 1];
      }
    } else if |a| > 0 && |b| > 0 {
      forall i | 0 <= i <= |a| && i < |b| && a[..i] == b[..i] ensures i == 0 {
        SamePrefix(a, b, i);
      }
    }
  }

  lemma SamePrefix(a: string, b: string, i: nat)
    requires i <= |a| && i <= |b| && a[..i] == b[..i]
    ensures i > 0 ==> a[0] == b[0]
  {
    if i > 0 {
      assert a[0] == a[..i][0];
    }
  }
}
