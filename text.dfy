/** The JavaScript string operations the forms rely on: `trim`, `split` on one
    character, `startsWith`, `name.split('.').pop()` and the decimal rendering
    of a count. */
module Text {

  /** ECMAScript WhiteSpace and LineTerminator code points, the set `trim` removes. */
  predicate IsSpace(c: char)
  {
    || c == '\t' || c == '\n' || c == '\U{000B}' || c == '\U{000C}' || c == '\r'
    || c == ' ' || c == '\U{00A0}' || c == '\U{1680}'
    || ('\U{2000}' <= c <= '\U{200A}')
    || c == '\U{2028}' || c == '\U{2029}' || c == '\U{202F}' || c == '\U{205F}'
    || c == '\U{3000}' || c == '\U{FEFF}'
  }

  predicate AllSpace(s: string)
  {
    forall i :: 0 <= i < |s| ==> IsSpace(s[i])
  }

  /** Neither end of `s` is white space. */
  predicate IsTrimmed(s: string)
  {
    s == [] || (!IsSpace(s[0]) && !IsSpace(s[|s| - 1]))
  }

  function TrimStart(s: string): (r: string)
    ensures r == [] || !IsSpace(r[0])
    ensures |r| <= |s| && r == s[|s| - |r|..]
    ensures AllSpace(s[..|s| - |r|])
  {
    if s != [] && IsSpace(s[0]) then TrimStart(s[1..]) else s
  }

  function TrimEnd(s: string): (r: string)
    ensures r == [] || !IsSpace(r[|r| - 1])
    ensures |r| <= |s| && r == s[..|r|]
    ensures AllSpace(s[|r|..])
  {
    if s != [] && IsSpace(s[|s| - 1]) then TrimEnd(s[..|s| - 1]) else s
  }

  /** `s.trim()`. */
  function Trim(s: string): string
  {
    TrimEnd(TrimStart(s))
  }

  /** `!s.trim()`: the field is empty or white space only (`BlankIffAllSpace`
      shows the two readings agree). */
  predicate IsBlank(s: string)
  {
    AllSpace(s)
  }

  /** `trim` removes exactly the white space at both ends: the result is an
      infix of `s`, trimmed, and only white space was cut away. */
  lemma TrimCutsOnlySpace(s: string)
    ensures IsTrimmed(Trim(s))
    ensures exists i, j :: 0 <= i <= j <= |s| && Trim(s) == s[i..j]
                          && AllSpace(s[..i]) && AllSpace(s[j..])
  {
    var a := TrimStart(s);
    var i := |s| - |a|;
    var r := TrimEnd(a);
    var j := i + |r|;
    assert a == s[i..];
    assert r == s[i..j];
    assert s[j..] == a[|r|..];
    if r != [] {
      assert r[0] == a[0];
    }
    assert Trim(s) == s[i..j] && AllSpace(s[..i]) && AllSpace(s[j..]);
  }

  /** The result of `trim` is trimmed. */
  lemma TrimIsTrimmed(s: string)
    ensures IsTrimmed(Trim(s))
  {
    var a := TrimStart(s);
    if Trim(s) != [] {
      assert Trim(s)[0] == a[0];
    }
  }

  /** `trim` adds no character: everything in the result is in the input. */
  lemma TrimKeepsChars(s: string)
    ensures forall c :: c in Trim(s) ==> c in s
  {
    var a := TrimStart(s);
    var r := TrimEnd(a);
    var off := |s| - |a|;
    assert r == s[off..off + |r|];
    InfixMembers(s, off, off + |r|);
  }

  lemma InfixMembers<T>(s: seq<T>, i: nat, j: nat)
    requires i <= j <= |s|
    ensures forall c :: c in s[i..j] ==> c in s
  {
    forall c | c in s[i..j] ensures c in s {
      var k :| 0 <= k < j - i && s[i..j][k] == c;
      assert s[i + k] == c;
    }
  }

  /** A field is blank exactly when it consists of white space only. */
  lemma BlankIffAllSpace(s: string)
    ensures Trim(s) == [] <==> IsBlank(s)
  {
    var a := TrimStart(s);
    if Trim(s) == [] {
      assert a == [];
      assert s[..|s|] == s;
    }
    if AllSpace(s) {
      assert a == [];
    }
  }

  lemma TrimOfTrimmed(s: string)
    requires IsTrimmed(s)
    ensures Trim(s) == s
  {
  }

  /** `trim` is idempotent. */
  lemma TrimIdempotent(s: string)
    ensures Trim(Trim(s)) == Trim(s)
  {
    TrimCutsOnlySpace(s);
    TrimOfTrimmed(Trim(s));
  }

  /** Leading white space never survives `trim`. */
  lemma {:induction false} TrimDropsLeading(p: string, s: string)
    requires AllSpace(p)
    ensures Trim(p + s) == Trim(s)
    decreases |p|
  {
    if p != [] {
      assert (p + s)[0] == p[0] && IsSpace(p[0]);
      assert (p + s)[1..] == p[1..] + s;
      assert AllSpace(p[1..]) by {
        forall k | 0 <= k < |p| - 1 ensures IsSpace(p[1..][k]) {
          assert p[1..][k] == p[k + 1];
        }
      }
      TrimDropsLeading(p[1..], s);
    } else {
      assert p + s == s;
    }
  }

  /** Trailing white space never survives `trim`. */
  lemma {:induction false} TrimEndDropsTrailing(s: string, p: string)
    requires AllSpace(p)
    ensures TrimEnd(s + p) == TrimEnd(s)
    decreases |p|
  {
    if p != [] {
      assert (s + p)[|s + p| - 1] == p[|p| - 1] && IsSpace(p[|p| - 1]);
      assert (s + p)[..|s + p| - 1] == s + p[..|p| - 1];
      TrimEndDropsTrailing(s, p[..|p| - 1]);
    } else {
      assert s + p == s;
    }
  }

  lemma TrimStartOfTrailingSpace(s: string, p: string)
    requires s == [] || !IsSpace(s[0])
    requires AllSpace(p)
    ensures TrimStart(s + p) == if s == [] then [] else s + p
  {
    if s == [] {
      assert s + p == p;
      BlankIffAllSpace(p);
      TrimDropsLeading(p, []);
      assert p + [] == p;
    }
  }

  lemma TrimDropsTrailing(s: string, p: string)
    requires AllSpace(p)
    ensures Trim(s + p) == Trim(s)
  {
    var a := TrimStart(s);
    var i := |s| - |a|;
    assert s == s[..i] + a;
    assert s + p == s[..i] + (a + p);
    TrimDropsLeading(s[..i], a + p);
    TrimStartOfTrailingSpace(a, p);
    if a != [] {
      TrimEndDropsTrailing(a, p);
    }
    TrimDropsLeading(s[..i], a);
    assert Trim(s[..i] + a) == Trim(a);
    assert Trim(a) == TrimEnd(a);
  }

  /** `"a,,b".split(",")`: the pieces between separators, empty ones included. */
  function Split(s: string, sep: char): (parts: seq<string>)
    ensures |parts| >= 1
    ensures forall k :: 0 <= k < |parts| ==> sep !in parts[k]
  {
    if s == [] then [[]]
    else
      var rest := Split(s[1..], sep);
      if s[0] == sep then [[]] + rest else [[s[0]] + rest[0]] + rest[1..]
  }

  /** `parts.join(sep)`. */
  function Join(parts: seq<string>, sep: string): string
  {
    if parts == [] then []
    else if |parts| == 1 then parts[0]
    else parts[0] + sep + Join(parts[1..], sep)
  }

  /** Splitting and joining back gives the original text. */
  lemma {:induction false} JoinSplit(s: string, sep: char)
    ensures Join(Split(s, sep), [sep]) == s
  {
    if s != [] {
      var rest := Split(s[1..], sep);
      JoinSplit(s[1..], sep);
      if s[0] == sep {
        assert Split(s, sep) == [[]] + rest;
        assert s == [sep] + s[1..];
      } else {
        var parts := Split(s, sep);
        assert parts == [[s[0]] + rest[0]] + rest[1..];
        if |rest| == 1 {
          assert s == [s[0]] + rest[0];
        } else {
          assert Join(rest, [sep]) == rest[0] + [sep] + Join(rest[1..], [sep]);
          assert parts[1..] == rest[1..];
          assert s == [s[0]] + s[1..];
        }
      }
    }
  }

  /** Joining separator-free pieces and splitting again gives the pieces back. */
  lemma {:induction false} SplitJoin(parts: seq<string>, sep: char)
    requires |parts| >= 1
    requires forall k :: 0 <= k < |parts| ==> sep !in parts[k]
    ensures Split(Join(parts, [sep]), sep) == parts
    decreases |parts|
  {
    if |parts| == 1 {
      SplitPlain(parts[0], [], sep);
      assert parts[0] + [] == parts[0];
    } else {
      SplitJoin(parts[1..], sep);
      var tail := Join(parts[1..], [sep]);
      assert Join(parts, [sep]) == parts[0] + ([sep] + tail);
      SplitSeparatorFirst(tail, sep);
      SplitPlain(parts[0], [sep] + tail, sep);
      var rest := Split([sep] + tail, sep);
      assert rest[0] == [] && rest[1..] == parts[1..];
      assert parts[0] + [] == parts[0];
      assert [parts[0]] + parts[1..] == parts;
    }
  }

  lemma SplitSeparatorFirst(t: string, sep: char)
    ensures Split([sep] + t, sep) == [[]] + Split(t, sep)
  {
    assert ([sep] + t)[1..] == t;
  }

  /** A separator-free prefix is glued to the first piece of the rest. */
  lemma {:induction false} SplitPlain(a: string, t: string, sep: char)
    requires sep !in a
    ensures var rest := Split(t, sep);
            Split(a + t, sep) == [a + rest[0]] + rest[1..]
    decreases |a|
  {
    if a == [] {
      var rest := Split(t, sep);
      assert a + t == t && a + rest[0] == rest[0];
      assert rest == [rest[0]] + rest[1..];
    } else {
      assert (a + t)[0] == a[0] && a[0] != sep;
      assert (a + t)[1..] == a[1..] + t;
      assert sep !in a[1..];
      SplitPlain(a[1..], t, sep);
      var rest := Split(t, sep);
      assert [a[0]] + (a[1..] + rest[0]) == a + rest[0];
    }
  }

  /** `s.startsWith(p)`. */
  predicate StartsWith(s: string, p: string)
  {
    |p| <= |s| && s[..|p|] == p
  }

  /** `name.split('.').pop()`: what follows the last `'.'`, or the whole name
      when there is none. */
  function AfterLastDot(name: string): (ext: string)
    ensures '.' !in ext
    ensures '.' !in name ==> ext == name
    ensures '.' in name ==> exists stem :: name == stem + "." + ext
  {
    var parts := Split(name, '.');
    var last := parts[|parts| - 1];
    JoinSplit(name, '.');
    if '.' in name then
      assert |parts| >= 2;
      JoinLast(parts, ".");
      last
    else
      SplitPlain(name, [], '.');
      assert name + [] == name;
      last
  }

  lemma JoinLast(parts: seq<string>, sep: string)
    requires |parts| >= 2
    ensures Join(parts, sep) == Join(parts[..|parts| - 1], sep) + sep + parts[|parts| - 1]
    decreases |parts|
  {
    if |parts| > 2 {
      JoinLast(parts[1..], sep);
      assert parts[1..][..|parts| - 2] == parts[1..|parts| - 1];
      assert parts[..|parts| - 1][1..] == parts[1..|parts| - 1];
    }
  }

  function DigitChar(d: nat): char
    requires d < 10
  {
    "0123456789"[d]
  }

  /** The decimal rendering of a count, as template literals print it. */
  function NatToString(n: nat): (s: string)
    ensures |s| >= 1
    ensures forall k :: 0 <= k < |s| ==> '0' <= s[k] <= '9'
    ensures s[0] == '0' ==> n == 0
  {
    if n < 10 then [DigitChar(n)] else NatToString(n / 10) + [DigitChar(n % 10)]
  }
}
