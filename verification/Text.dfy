/** The string operations of Go that the text formats below are built from. */
module Text {
  import opened Wrappers

  /** Unicode's White_Space property. */
  predicate IsSpace(c: char) {
    || '\U{9}' <= c <= '\U{D}'
    || c in ['\U{20}', '\U{85}', '\U{A0}', '\U{1680}', '\U{2028}', '\U{2029}', '\U{202F}', '\U{205F}', '\U{3000}']
    || '\U{2000}' <= c <= '\U{200A}'
  }

  lemma SpacesAre(c: char)
    ensures IsSpace(c) <==>
              var n := c as int;
              9 <= n <= 13 || n in {0x20, 0x85, 0xA0, 0x1680, 0x2028, 0x2029, 0x202F, 0x205F, 0x3000} || 0x2000 <= n <= 0x200A
  {
  }

  function TrimLeft(s: string): string {
    if s != "" && IsSpace(s[0]) then TrimLeft(s[1..]) else s
  }

  function TrimRight(s: string): string {
    if s != "" && IsSpace(s[|s| - 1]) then TrimRight(s[..|s| - 1]) else s
  }

  function TrimSpace(s: string): string {
    TrimRight(TrimLeft(s))
  }

  /** The parts of `s` between separators, at least one. */
  function Split(s: string, sep: char): (parts: seq<string>)
    ensures parts != []
  {
    if s == "" then [""]
    else if s[0] == sep then [""] + Split(s[1..], sep)
    else
      var rest := Split(s[1..], sep);
      [[s[0]] + rest[0]] + rest[1..]
  }

  datatype Field = Field(key: string, value: string)

  /** What is before and after the first separator. */
  function Cut(s: string, sep: char): Option<Field> {
    if s == "" then None
    else if s[0] == sep then Some(Field("", s[1..]))
    else
      match Cut(s[1..], sep)
      case None => None
      case Some(field) => Some(Field([s[0]] + field.key, field.value))
  }

  ghost predicate OccursAt(q: string, s: string, i: nat) {
    i + |q| <= |s| && s[i..i + |q|] == q
  }

  ghost predicate Contains(s: string, q: string) {
    exists i: nat :: OccursAt(q, s, i)
  }

  lemma TrimNothing(s: string)
    requires s != "" ==> !IsSpace(s[0]) && !IsSpace(s[|s| - 1])
    ensures TrimSpace(s) == s
  {
  }

  lemma {:induction false} TrimRightStops(a: string, b: string)
    requires a != "" && !IsSpace(a[|a| - 1])
    ensures TrimRight(a + b) == a + TrimRight(b)
  {
    if b == "" {
      assert a + b == a;
    } else {
      TrimRightStops(a, b[..|b| - 1]);
      assert (a + b)[..|a + b| - 1] == a + b[..|b| - 1];
    }
  }

  lemma {:induction false} SplitWithout(s: string, sep: char)
    requires sep !in s
    ensures Split(s, sep) == [s]
  {
    if s != "" {
      SplitWithout(s[1..], sep);
      assert [s[0]] + s[1..] == s;
    }
  }

  lemma HeadOfJoin(x: seq<string>, y: seq<string>)
    requires x != []
    ensures (x + y)[0] == x[0] && (x + y)[1..] == x[1..] + y
    ensures forall first: seq<string> :: first + (x + y) == first + x + y
    ensures forall first: seq<string> :: first + (x[1..] + y) == first + x[1..] + y
  {
  }

  lemma {:induction false} SplitJoined(a: string, sep: char, b: string)
    ensures Split(a + [sep] + b, sep) == Split(a, sep) + Split(b, sep)
  {
    if a == "" {
      assert (a + [sep] + b)[1..] == b;
    } else {
      assert (a + [sep] + b)[1..] == a[1..] + [sep] + b;
      SplitJoined(a[1..], sep, b);
      HeadOfJoin(Split(a[1..], sep), Split(b, sep));
    }
  }

  lemma {:induction false} CutAt(key: string, sep: char, value: string)
    requires sep !in key
    ensures Cut(key + [sep] + value, sep) == Some(Field(key, value))
  {
    if key == "" {
      assert (key + [sep] + value)[1..] == value;
    } else {
      assert (key + [sep] + value)[1..] == key[1..] + [sep] + value;
      CutAt(key[1..], sep, value);
      assert [key[0]] + key[1..] == key;
    }
  }

  // ---------- What trimming, splitting and cutting mean ----------

  ghost predicate AllSpaces(s: string) {
    forall i :: 0 <= i < |s| ==> IsSpace(s[i])
  }

  ghost predicate IsTrimmed(s: string) {
    s != "" ==> !IsSpace(s[0]) && !IsSpace(s[|s| - 1])
  }

  lemma {:induction false} TrimLeftIs(a: string, s: string)
    requires AllSpaces(a) && (s != "" ==> !IsSpace(s[0]))
    ensures TrimLeft(a + s) == s
  {
    if a == "" {
      assert a + s == s;
    } else {
      assert (a + s)[1..] == a[1..] + s;
      TrimLeftIs(a[1..], s);
    }
  }

  lemma {:induction false} TrimRightIs(s: string, b: string)
    requires AllSpaces(b) && (s != "" ==> !IsSpace(s[|s| - 1]))
    ensures TrimRight(s + b) == s
  {
    if b == "" {
      assert s + b == s;
    } else {
      assert (s + b)[..|s + b| - 1] == s + b[..|b| - 1];
      TrimRightIs(s, b[..|b| - 1]);
    }
  }

  lemma {:induction false} TrimLeftAt(s: string) returns (n: nat)
    ensures n <= |s| && TrimLeft(s) == s[n..] && (n < |s| ==> !IsSpace(s[n])) && AllSpaces(s[..n])
  {
    n := 0;
    if s != "" && IsSpace(s[0]) {
      n := TrimLeftAt(s[1..]);
      assert s[1..][n..] == s[n + 1..] && s[..n + 1] == [s[0]] + s[1..][..n];
      n := n + 1;
    }
  }

  lemma {:induction false} TrimRightAt(s: string) returns (n: nat)
    ensures n <= |s| && TrimRight(s) == s[..n] && (n > 0 ==> !IsSpace(s[n - 1])) && AllSpaces(s[n..])
  {
    n := |s|;
    if s != "" && IsSpace(s[|s| - 1]) {
      var front := s[..|s| - 1];
      n := TrimRightAt(front);
      assert front[..n] == s[..n] && s[n..] == front[n..] + [s[|s| - 1]];
    }
  }

  lemma TrimLeftExists(s: string) returns (a: string)
    ensures AllSpaces(a) && s == a + TrimLeft(s) && (TrimLeft(s) != "" ==> !IsSpace(TrimLeft(s)[0]))
  {
    var n := TrimLeftAt(s);
    a := s[..n];
  }

  lemma TrimRightExists(s: string) returns (b: string)
    ensures AllSpaces(b) && s == TrimRight(s) + b && (TrimRight(s) != "" ==> !IsSpace(TrimRight(s)[|TrimRight(s)| - 1]))
  {
    var n := TrimRightAt(s);
    b := s[n..];
  }

  lemma TrimSpaceIs(a: string, s: string, b: string)
    requires AllSpaces(a) && IsTrimmed(s) && AllSpaces(b)
    ensures TrimSpace(a + s + b) == s
  {
    if s == "" {
      TrimLeftIs(a + b, "");
      assert a + s + b == a + b + "";
    } else {
      assert a + s + b == a + (s + b);
      TrimLeftIs(a, s + b);
      TrimRightIs(s, b);
    }
  }

  /** `t` is `s` without the spaces on both sides. */
  ghost predicate IsTrimOf(s: string, t: string) {
    IsTrimmed(t) && exists a, b :: AllSpaces(a) && AllSpaces(b) && s == a + t + b
  }

  lemma TrimSpaceIff(s: string, t: string)
    ensures TrimSpace(s) == t <==> IsTrimOf(s, t)
  {
    var a := TrimLeftExists(s);
    var b := TrimRightExists(TrimLeft(s));
    assert IsTrimmed(TrimSpace(s)) && s == a + TrimSpace(s) + b;
    if IsTrimOf(s, t) {
      var a1, b1 :| AllSpaces(a1) && AllSpaces(b1) && s == a1 + t + b1;
      TrimSpaceIs(a1, t, b1);
    }
  }

  lemma {:induction false} TrimLeftJoin(a: string, b: string)
    requires b != "" && !IsSpace(b[0])
    ensures TrimLeft(a + b) == TrimLeft(a) + b
  {
    if a == "" {
      assert a + b == b;
    } else {
      assert (a + b)[1..] == a[1..] + b;
      TrimLeftJoin(a[1..], b);
    }
  }

  lemma {:induction false} TrimLeftTwice(s: string)
    ensures TrimLeft(TrimLeft(s)) == TrimLeft(s)
  {
    if s != "" && IsSpace(s[0]) {
      TrimLeftTwice(s[1..]);
    }
  }

  lemma TrimOfWith(a: string, t: string, b: string)
    requires IsTrimmed(t) && AllSpaces(a) && AllSpaces(b)
    ensures IsTrimOf(a + t + b, t)
  {
  }

  lemma TrimOfLonger(s: string, t: string, b: string)
    requires IsTrimOf(s, t) && AllSpaces(b)
    ensures IsTrimOf(s + b, t)
  {
    var a1, b1 :| AllSpaces(a1) && AllSpaces(b1) && s == a1 + t + b1;
    TrimOfWith(a1, t, b1 + b);
    assert s + b == a1 + t + (b1 + b);
  }

  lemma TrimRightFirst(s: string)
    ensures TrimSpace(TrimRight(s)) == TrimSpace(s)
  {
    var b := TrimRightExists(s);
    var front, t := TrimRight(s), TrimSpace(TrimRight(s));
    assert IsTrimOf(s, t) by {
      TrimSpaceIff(front, t);
      TrimOfLonger(front, t, b);
    }
    TrimSpaceIff(s, t);
  }

  /** The parts with separators between them. */
  function Joined(parts: seq<string>, sep: char): string
    requires parts != []
  {
    if |parts| == 1 then parts[0] else parts[0] + [sep] + Joined(parts[1..], sep)
  }

  /** Splitting is the inverse of joining parts that do not contain the separator. */
  lemma {:induction false} SplitOfJoined(parts: seq<string>, sep: char)
    requires parts != [] && forall part <- parts :: sep !in part
    ensures Split(Joined(parts, sep), sep) == parts
  {
    SplitWithout(parts[0], sep);
    if |parts| > 1 {
      SplitOfJoined(parts[1..], sep);
      SplitJoined(parts[0], sep, Joined(parts[1..], sep));
    }
  }

  lemma {:induction false} JoinedSplit(s: string, sep: char)
    ensures Joined(Split(s, sep), sep) == s && forall part <- Split(s, sep) :: sep !in part
  {
    if s != "" {
      JoinedSplit(s[1..], sep);
      var rest := Split(s[1..], sep);
      if s[0] == sep {
        assert Split(s, sep)[1..] == rest;
      } else if |rest| > 1 {
        assert Split(s, sep)[1..] == rest[1..];
        assert [s[0]] + rest[0] + [sep] + Joined(rest[1..], sep) == [s[0]] + Joined(rest, sep);
      }
    }
  }

  /** A text that is cut consists of the key, the separator and the value, and the key has no separator. */
  lemma {:induction false} CutMeans(s: string, sep: char)
    ensures Cut(s, sep).None? <==> sep !in s
    ensures Cut(s, sep).Some? ==> var field := Cut(s, sep).value; s == field.key + [sep] + field.value && sep !in field.key
  {
    if s != "" && s[0] != sep {
      CutMeans(s[1..], sep);
    }
  }
}
