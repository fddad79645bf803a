/** Topic filters of the MQTT connection: a loop that moves two pointers, against the rules of
    section 4.7.1 of MQTT 3.1.1 stated level by level. */
module MqttTopics {

  // ----- levels -----

  /** The characters before the first '/', and what follows them. */
  function Head(s: string): (h: string)
    ensures |h| <= |s| && h == s[..|h|] && '/' !in h
    ensures |h| < |s| ==> s[|h|] == '/'
  {
    if s == "" || s[0] == '/' then "" else [s[0]] + Head(s[1..])
  }

  function Tail(s: string): (r: string)
    ensures s == Head(s) + r && (r == "" || r[0] == '/')
  {
    s[|Head(s)|..]
  }

  function Levels(s: string): (levels: seq<string>)
    ensures levels != []
    decreases |s|
  {
    if Tail(s) == "" then [Head(s)] else [Head(s)] + Levels(Tail(s)[1..])
  }

  predicate WildcardFree(level: string) {
    '+' !in level && '#' !in level
  }

  /** A filter section 4.7.1 allows: '+' fills a level and '#' is the whole last level. */
  predicate WellFormed(filter: seq<string>) {
    forall k | 0 <= k < |filter| ::
      filter[k] == "+" || WildcardFree(filter[k]) || (filter[k] == "#" && k == |filter| - 1)
  }

  predicate LevelMatches(filter: string, level: string) {
    filter == "+" || filter == level
  }

  /** Section 4.7.1: a final '#' stands for the parent and any number of further levels, a '+'
      for exactly one level, everything else for itself. */
  predicate Allowed(filter: seq<string>, topic: seq<string>)
    requires filter != []
  {
    var n := |filter| - 1;
    if filter[n] == "#"
    then n <= |topic| && forall k | 0 <= k < n :: LevelMatches(filter[k], topic[k])
    else |filter| == |topic| && forall k | 0 <= k < |filter| :: LevelMatches(filter[k], topic[k])
  }

  /** The two corners where the loop is stricter: "a/#" against "a", and '+' against an empty
      last level. */
  predicate ParentCorner(filter: seq<string>, topic: seq<string>)
    requires filter != []
  {
    filter[|filter| - 1] == "#" && |topic| == |filter| - 1
  }

  predicate EmptyLastCorner(filter: seq<string>, topic: seq<string>)
    requires filter != []
  {
    |filter| == |topic| && filter[|filter| - 1] == "+" && topic[|topic| - 1] == ""
  }

  // ----- the loop -----

  /** What the loop decides from a position on; `atStart` says that the filter is at its start or
      just behind a '/'. */
  predicate Scan(f: string, t: string, atStart: bool)
    decreases |f|
  {
    if f == "" || t == "" then (f != "" && f[0] == '#' && atStart) || (f == "" && t == "")
    else if f[0] == '+' then Scan(f[1..], Tail(t), false)
    else if f[0] == '#' then true
    else f[0] == t[0] && Scan(f[1..], t[1..], f[0] == '/')
  }

  /** c_str() seen as a C string: everything before the first NUL. */
  function CString(s: string): (r: string)
    ensures |r| <= |s| && r == s[..|r|] && '\0' !in r
    ensures |r| < |s| ==> s[|r|] == '\0'
    ensures '\0' !in s ==> r == s
  {
    if s == "" || s[0] == '\0' then "" else [s[0]] + CString(s[1..])
  }

  predicate Accepts(filter: string, topic: string) {
    filter == topic || Scan(CString(filter), CString(topic), true)
  }

  lemma SkipOne(t: string, k: nat)
    requires k <= |t|
    ensures k < |t| && t[k] != '/' ==> Tail(t[k..]) == Tail(t[k + 1..])
    ensures k == |t| || t[k] == '/' ==> Tail(t[k..]) == t[k..]
  {
    if k < |t| {
      assert t[k..][1..] == t[k + 1..];
    }
  }

  /** Scan from a position in each string. */
  predicate ScanFrom(f: string, i: nat, t: string, j: nat)
    requires i <= |f| && j <= |t|
  {
    Scan(f[i..], t[j..], i == 0 || f[i - 1] == '/')
  }

  lemma ScanStep(f: string, i: nat, t: string, j: nat, k: nat)
    requires i < |f| && j < |t|
    requires f[i] == '+' ==> j <= k <= |t| && Tail(t[j..]) == t[k..]
    ensures ScanFrom(f, i, t, j) ==
            if f[i] == '+' then ScanFrom(f, i + 1, t, k)
            else if f[i] == '#' then true
            else f[i] == t[j] && ScanFrom(f, i + 1, t, j + 1)
  {
    assert f[i..][1..] == f[i + 1..] && t[j..][1..] == t[j + 1..];
  }

  /** Reading the buffer that c_str() ends with a NUL. */
  function ReadAt(s: string, i: nat): char
    requires i <= |s|
  {
    if i < |s| then s[i] else '\0'
  }

  lemma AtEnd(s: string, i: nat)
    requires i <= |CString(s)|
    ensures ReadAt(s, i) == '\0' <==> i == |CString(s)|
    ensures i < |CString(s)| ==> ReadAt(s, i) == CString(s)[i]
    ensures i > 0 ==> ReadAt(s, i - 1) == CString(s)[i - 1]
  {
  }

  /** The inner loop: t moves to the next '/' or to the end. */
  method SkipLevel(topic: string, j: nat) returns (k: nat)
    requires j <= |CString(topic)|
    ensures j <= k <= |CString(topic)| && Tail(CString(topic)[j..]) == CString(topic)[k..]
  {
    ghost var ct := CString(topic);
    k := j;
    AtEnd(topic, k);
    while ReadAt(topic, k) != '\0' && ReadAt(topic, k) != '/'
      invariant j <= k <= |ct| && Tail(ct[j..]) == Tail(ct[k..])
      invariant ReadAt(topic, k) == '\0' <==> k == |ct|
      decreases |ct| - k
    {
      AtEnd(topic, k);
      SkipOne(ct, k);
      k := k + 1;
      AtEnd(topic, k);
    }
    AtEnd(topic, k);
    SkipOne(ct, k);
  }

  /** The pointer loop over the two NUL-ended buffers. */
  method TopicMatches(filter: string, topic: string) returns (r: bool)
    ensures r == Accepts(filter, topic)
  {
    if filter == topic { return true; }
    ghost var cf, ct := CString(filter), CString(topic);
    assert cf[0..] == cf && ct[0..] == ct;
    var i, j := 0, 0;
    AtEnd(filter, i);
    AtEnd(topic, j);
    while ReadAt(filter, i) != '\0' && ReadAt(topic, j) != '\0'
      invariant i <= |cf| && j <= |ct| && ScanFrom(cf, i, ct, j) == Scan(cf, ct, true)
      invariant ReadAt(filter, i) == '\0' <==> i == |cf|
      invariant ReadAt(topic, j) == '\0' <==> j == |ct|
      decreases |cf| - i
    {
      AtEnd(filter, i);
      AtEnd(topic, j);
      if ReadAt(filter, i) == '+' {
        var k := SkipLevel(topic, j);
        ScanStep(cf, i, ct, j, k);
        i, j := i + 1, k;
      } else {
        ScanStep(cf, i, ct, j, j);
        if ReadAt(filter, i) == '#' { return true; }
        if ReadAt(filter, i) != ReadAt(topic, j) { return false; }
        i, j := i + 1, j + 1;
      }
      AtEnd(filter, i);
      AtEnd(topic, j);
    }
    AtEnd(filter, i);
    if ReadAt(filter, i) == '#' && (i == 0 || ReadAt(filter, i - 1) == '/') { return true; }
    return ReadAt(filter, i) == '\0' && ReadAt(topic, j) == '\0';
  }

  // ----- the loop decides level by level -----

  /** One literal level: compared as a whole, then the rest from the next '/'. */
  lemma {:induction false} LiteralLevel(f: string, t: string, atStart: bool)
    requires WildcardFree(Head(f))
    ensures Scan(f, t, atStart) == (Head(f) == Head(t) && Scan(Tail(f), Tail(t), false))
    decreases |f|
  {
    if f == "" || f[0] == '/' {
      assert Tail(f) == f;
      if t == "" || t[0] == '/' {
        assert Tail(t) == t;
      } else {
        assert Head(t) == [t[0]] + Head(t[1..]);
      }
    } else {
      assert Head(f) == [f[0]] + Head(f[1..]) && Tail(f) == Tail(f[1..]);
      assert f[0] == Head(f)[0];
      assert forall c | c in Head(f[1..]) :: c in Head(f);
      if t != "" && t[0] == f[0] {
        assert Head(t) == [t[0]] + Head(t[1..]) && Tail(t) == Tail(t[1..]);
        LiteralLevel(f[1..], t[1..], false);
        assert Head(f) == Head(t) <==> Head(f[1..]) == Head(t[1..]) by {
          assert Head(f)[1..] == Head(f[1..]) && Head(t)[1..] == Head(t[1..]);
        }
      } else if t != "" && t[0] != '/' {
        assert Head(t) == [t[0]] + Head(t[1..]);
        assert Head(t)[0] != Head(f)[0];
      }
    }
  }

  /** Past a level, both sides must go on with a '/' or both must end. */
  lemma BetweenLevels(f: string, t: string)
    requires f == "" || f[0] == '/'
    requires t == "" || t[0] == '/'
    ensures Scan(f, t, false) == if f == "" || t == "" then f == t else Scan(f[1..], t[1..], true)
  {
  }

  /** The level-by-level matcher the loop implements. */
  predicate ByLevel(filter: seq<string>, topic: seq<string>)
    decreases |filter|
  {
    if filter == [] || topic == [] then filter == topic
    else if filter[0] == "#" then true
    else if filter[0] == "+" then !(topic[0] == "" && |topic| == 1) && ByLevel(filter[1..], topic[1..])
    else filter[0] == topic[0] && ByLevel(filter[1..], topic[1..])
  }

  lemma WildcardLevel(f: string)
    requires Head(f) == "+" || Head(f) == "#"
    ensures f != "" && f[0] == Head(f)[0] && f[1..] == Tail(f)
  {
    assert f == Head(f) + Tail(f);
  }

  lemma {:induction false} ScanIsByLevel(f: string, t: string)
    requires WellFormed(Levels(f))
    ensures Scan(f, t, true) == ByLevel(Levels(f), Levels(t))
    decreases |f|
  {
    var F, T := Levels(f), Levels(t);
    assert F[0] == Head(f) && T[0] == Head(t);
    if F[0] == "#" {
      WildcardLevel(f);
    } else {
      if F[0] == "+" {
        WildcardLevel(f);
        assert t == "" <==> T[0] == "" && |T| == 1;
      } else {
        LiteralLevel(f, t, true);
      }
      BetweenLevels(Tail(f), Tail(t));
      if Tail(f) != "" && Tail(t) != "" {
        assert F[1..] == Levels(Tail(f)[1..]) && T[1..] == Levels(Tail(t)[1..]);
        assert WellFormed(F[1..]) by {
          assert forall k | 0 <= k < |F[1..]| :: F[1..][k] == F[k + 1];
        }
        ScanIsByLevel(Tail(f)[1..], Tail(t)[1..]);
      } else if Tail(f) == "" && Tail(t) == "" {
        assert F[1..] == [] && T[1..] == [];
      } else {
        assert F[1..] == [] || T[1..] == [];
        assert F[1..] != [] || T[1..] != [];
      }
    }
  }

  lemma {:induction false} ByLevelIsAllowedOutsideCorners(filter: seq<string>, topic: seq<string>)
    requires filter != [] && topic != [] && WellFormed(filter)
    ensures ByLevel(filter, topic)
            <==> Allowed(filter, topic) && !ParentCorner(filter, topic) && !EmptyLastCorner(filter, topic)
    decreases |filter|
  {
    var rest, left := filter[1..], topic[1..];
    assert forall k | 0 <= k < |rest| :: rest[k] == filter[k + 1];
    assert forall k | 0 <= k < |left| :: left[k] == topic[k + 1];
    if filter[0] == "#" {
      assert |filter| == 1;
    } else if rest != [] && left != [] {
      ByLevelIsAllowedOutsideCorners(rest, left);
      assert rest[|rest| - 1] == filter[|filter| - 1] && left[|left| - 1] == topic[|topic| - 1];
      AllowedStepwise(filter, topic);
    } else if rest != [] {
      assert |topic| == 1;
      assert !ByLevel(filter, topic);
      if filter[|filter| - 1] == "#" && |filter| == 2 {
        assert ParentCorner(filter, topic);
      } else {
        assert !Allowed(filter, topic);
      }
    }
  }

  lemma AllowedStepwise(filter: seq<string>, topic: seq<string>)
    requires |filter| > 1 && topic != [] && WellFormed(filter)
    ensures Allowed(filter, topic) <==> LevelMatches(filter[0], topic[0]) && Allowed(filter[1..], topic[1..])
  {
    var rest, left := filter[1..], topic[1..];
    assert rest[|rest| - 1] == filter[|filter| - 1];
    if LevelMatches(filter[0], topic[0]) && Allowed(rest, left) {
      forall k | 0 <= k < (if filter[|filter| - 1] == "#" then |filter| - 1 else |filter|)
        ensures LevelMatches(filter[k], topic[k])
      {
        if k > 0 {
          assert LevelMatches(rest[k - 1], left[k - 1]);
        }
      }
    }
    if Allowed(filter, topic) {
      forall k | 0 <= k < (if filter[|filter| - 1] == "#" then |rest| - 1 else |rest|)
        ensures LevelMatches(rest[k], left[k])
      {
        assert LevelMatches(filter[k + 1], topic[k + 1]);
      }
    }
  }

  lemma {:induction false} ByLevelIsReflexive(levels: seq<string>)
    requires WellFormed(levels)
    ensures ByLevel(levels, levels)
    decreases |levels|
  {
    if levels != [] {
      var rest := levels[1..];
      assert forall k | 0 <= k < |rest| :: rest[k] == levels[k + 1];
      ByLevelIsReflexive(rest);
    }
  }

  /** For every well-formed filter and every topic, the connection's matcher accepts exactly what
      section 4.7.1 accepts, except in the two corners. */
  lemma AcceptsExactly(filter: string, topic: string)
    requires WellFormed(Levels(filter)) && '\0' !in filter && '\0' !in topic
    ensures Accepts(filter, topic)
            <==> Allowed(Levels(filter), Levels(topic))
                 && !ParentCorner(Levels(filter), Levels(topic))
                 && !EmptyLastCorner(Levels(filter), Levels(topic))
  {
    ScanIsByLevel(filter, topic);
    ByLevelIsAllowedOutsideCorners(Levels(filter), Levels(topic));
    if filter == topic {
      ByLevelIsReflexive(Levels(filter));
    }
  }

  /** It never accepts what the standard rejects. */
  lemma NeverTooGenerous(filter: string, topic: string)
    requires WellFormed(Levels(filter)) && '\0' !in filter && '\0' !in topic && Accepts(filter, topic)
    ensures Allowed(Levels(filter), Levels(topic))
  {
    AcceptsExactly(filter, topic);
  }

  /** The first corner is real: the standard accepts this pair, the connection does not. */
  lemma ParentIsRefused()
    ensures Allowed(Levels("p/#"), Levels("p")) && !Accepts("p/#", "p")
  {
    assert Head("p") == "p" && Head("p/#") == "p" && Tail("p/#") == "/#" && Tail("p") == "";
    assert "/#"[1..] == "#" && Head("#") == "#";
    assert Levels("p/#") == ["p", "#"] && Levels("p") == ["p"];
    AcceptsExactly("p/#", "p");
  }

  /** So is the second. */
  lemma EmptyLastLevelIsRefused()
    ensures Allowed(Levels("p/+"), Levels("p/")) && !Accepts("p/+", "p/")
  {
    assert Head("p/+") == "p" && Head("p/") == "p" && Tail("p/+") == "/+" && Tail("p/") == "/";
    assert "/+"[1..] == "+" && "/"[1..] == "" && Head("+") == "+" && Head("") == "";
    assert Levels("p/+") == ["p", "+"] && Levels("p/") == ["p", ""];
    AcceptsExactly("p/+", "p/");
  }

  function Join(levels: seq<string>): string
    requires levels != []
  {
    if |levels| == 1 then levels[0] else levels[0] + "/" + Join(levels[1..])
  }

  lemma LevelsStep(s: string)
    requires Tail(s) != ""
    ensures Levels(s) == [Head(s)] + Levels(Tail(s)[1..]) && s == Head(s) + "/" + Tail(s)[1..]
  {
    assert Tail(s) == "/" + Tail(s)[1..];
    assert Head(s) + ("/" + Tail(s)[1..]) == Head(s) + "/" + Tail(s)[1..];
  }

  /** Levels are what stands between the slashes: none holds a '/', and joined they are the string. */
  lemma {:induction false} LevelsRejoin(s: string)
    ensures Join(Levels(s)) == s
    ensures forall level | level in Levels(s) :: '/' !in level
    decreases |s|
  {
    if Tail(s) == "" {
      assert Levels(s) == [Head(s)];
    } else {
      LevelsStep(s);
      LevelsRejoin(Tail(s)[1..]);
      JoinStep(Head(s), Levels(Tail(s)[1..]));
    }
  }

  lemma JoinStep(head: string, levels: seq<string>)
    requires levels != []
    ensures Join([head] + levels) == head + "/" + Join(levels)
  {
    assert ([head] + levels)[1..] == levels;
  }
}
