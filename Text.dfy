/**
 * String operations that the site takes from JavaScript's String API:
 * `includes`, `toLowerCase` (ASCII part only), `split`, the regular
 * expression class `\s` and decimal rendering of a number in a template
 * literal.
 */
module Text {
  import opened Wrappers

  /** `t` occurs in `s` starting at index `i`. */
  ghost predicate OccursAt(s: string, t: string, i: int)
  {
    0 <= i && i + |t| <= |s| && s[i..i + |t|] == t
  }

  /** `s.includes(t)`, by a left-to-right scan. */
  function Contains(s: string, t: string): bool
    decreases |s|
  {
    if |t| <= |s| && s[..|t|] == t then true
    else if s == [] then false
    else Contains(s[1..], t)
  }

  /** An occurrence in the tail is an occurrence one place later in the whole. */
  lemma OccursShift(s: string, t: string, i: int)
    requires s != [] && OccursAt(s[1..], t, i)
    ensures OccursAt(s, t, i + 1)
  {
    assert s[1..][i..i + |t|] == s[i + 1..i + 1 + |t|];
  }

  /** An occurrence past the first place is an occurrence in the tail. */
  lemma OccursUnshift(s: string, t: string, i: int)
    requires 0 < i && OccursAt(s, t, i)
    ensures OccursAt(s[1..], t, i - 1)
  {
    assert s[1..][i - 1..i - 1 + |t|] == s[i..i + |t|];
  }

  /** A successful scan names the place where it matched. */
  lemma {:induction false} ContainsWitness(s: string, t: string) returns (i: int)
    requires Contains(s, t)
    ensures OccursAt(s, t, i)
    decreases |s|
  {
    if |t| <= |s| && s[..|t|] == t {
      i := 0;
    } else {
      var j := ContainsWitness(s[1..], t);
      OccursShift(s, t, j);
      i := j + 1;
    }
  }

  /** The scan does not miss an occurrence. */
  lemma {:induction false} OccursContains(s: string, t: string, i: int)
    requires OccursAt(s, t, i)
    ensures Contains(s, t)
    decreases i
  {
    if !(|t| <= |s| && s[..|t|] == t) {
      assert i != 0;
      OccursUnshift(s, t, i);
      OccursContains(s[1..], t, i - 1);
    }
  }

  /** `Contains` finds exactly the strings that occur somewhere in `s`. */
  lemma ContainsIff(s: string, t: string)
    ensures Contains(s, t) <==> exists i :: OccursAt(s, t, i)
  {
    if Contains(s, t) {
      var i := ContainsWitness(s, t);
    }
    if i :| OccursAt(s, t, i) {
      OccursContains(s, t, i);
    }
  }

  /** The empty string occurs in every string. */
  lemma ContainsEmpty(s: string)
    ensures Contains(s, "")
  {
  }

  /** ASCII upper-case letters map to lower case; every other character is kept. */
  function LowerChar(c: char): (r: char)
    ensures 'A' <= c <= 'Z' ==> 'a' <= r <= 'z' && r as int - c as int == 32
    ensures !('A' <= c <= 'Z') ==> r == c
  {
    if 'A' <= c <= 'Z' then (c as int + 32) as char else c
  }

  /** `s.toLowerCase()`, restricted to ASCII letters. */
  function ToLower(s: string): (r: string)
    ensures |r| == |s|
    ensures forall i :: 0 <= i < |s| ==> r[i] == LowerChar(s[i])
  {
    if s == [] then [] else [LowerChar(s[0])] + ToLower(s[1..])
  }

  /** The characters matched by `\s` in a JavaScript regular expression. */
  predicate IsJsWhitespace(c: char)
  {
    var n := c as int;
    n == 0x09 || n == 0x0A || n == 0x0B || n == 0x0C || n == 0x0D || n == 0x20 ||
    n == 0xA0 || n == 0x1680 || (0x2000 <= n <= 0x200A) || n == 0x2028 || n == 0x2029 ||
    n == 0x202F || n == 0x205F || n == 0x3000 || n == 0xFEFF
  }

  /** The first index at or after `from` where `sep` occurs in `s`. */
  function FindFrom(s: string, sep: string, from: nat): (r: Option<nat>)
    requires from <= |s|
    ensures r.Some? ==> from <= r.value && r.value + |sep| <= |s|
    decreases |s| - from
  {
    if from + |sep| <= |s| && s[from..from + |sep|] == sep then Some(from)
    else if from == |s| then None
    else FindFrom(s, sep, from + 1)
  }

  /** A found index is an occurrence. */
  lemma {:induction false} FindFromFound(s: string, sep: string, from: nat)
    requires from <= |s| && FindFrom(s, sep, from).Some?
    ensures var i := FindFrom(s, sep, from).value; s[i..i + |sep|] == sep
    decreases |s| - from
  {
    if !(from + |sep| <= |s| && s[from..from + |sep|] == sep) {
      FindFromFound(s, sep, from + 1);
    }
  }

  /** A found index is the first occurrence at or after `from`. */
  lemma {:induction false} FindFromFirst(s: string, sep: string, from: nat, k: nat)
    requires from <= |s| && FindFrom(s, sep, from).Some?
    requires from <= k < FindFrom(s, sep, from).value
    ensures !OccursAt(s, sep, k)
    decreases |s| - from
  {
    if k > from {
      FindFromFirst(s, sep, from + 1, k);
    }
  }

  /** An occurrence at `i` with none between `from` and `i` is what `FindFrom` finds. */
  lemma {:induction false} FindFromAt(s: string, sep: string, from: nat, i: nat)
    requires from <= i && i + |sep| <= |s| && s[i..i + |sep|] == sep
    requires forall k :: from <= k < i ==> !OccursAt(s, sep, k)
    ensures FindFrom(s, sep, from) == Some(i)
    decreases i - from
  {
    if from < i {
      assert !OccursAt(s, sep, from);
      FindFromAt(s, sep, from + 1, i);
    }
  }

  /** `None` means no occurrence at or after `from`. */
  lemma {:induction false} FindFromNone(s: string, sep: string, from: nat, k: nat)
    requires from <= |s| && FindFrom(s, sep, from).None? && from <= k
    ensures !OccursAt(s, sep, k)
    decreases |s| - from
  {
    if k > from && from < |s| {
      FindFromNone(s, sep, from + 1, k);
    }
  }

  /** The parts of `s[from..]` when split at every occurrence of `sep`. */
  function SplitFrom(s: string, sep: string, from: nat): (parts: seq<string>)
    requires sep != [] && from <= |s|
    ensures |parts| >= 1
    decreases |s| - from
  {
    match FindFrom(s, sep, from)
    case None => [s[from..]]
    case Some(i) => [s[from..i]] + SplitFrom(s, sep, i + |sep|)
  }

  /** `s.split(sep)` for a non-empty separator: the texts between successive occurrences. */
  function Split(s: string, sep: string): (parts: seq<string>)
    requires sep != []
    ensures |parts| >= 1
  {
    SplitFrom(s, sep, 0)
  }

  /** `parts.join(sep)`. */
  function Join(parts: seq<string>, sep: string): string
  {
    if parts == [] then "" else if |parts| == 1 then parts[0] else parts[0] + sep + Join(parts[1..], sep)
  }

  /** Splitting loses nothing: joining the parts with the separator rebuilds the text. */
  lemma {:induction false} SplitFromJoin(s: string, sep: string, from: nat)
    requires sep != [] && from <= |s|
    ensures Join(SplitFrom(s, sep, from), sep) == s[from..]
    decreases |s| - from
  {
    var f := FindFrom(s, sep, from);
    if f.Some? {
      SplitFromJoin(s, sep, f.value + |sep|);
      JoinFound(s, sep, from, f.value);
    } else {
      SplitFromEnd(s, sep, from);
      assert Join([s[from..]], sep) == s[from..];
    }
  }

  /** The join step after a separator found at `i`, given the join of what follows it. */
  lemma JoinFound(s: string, sep: string, from: nat, i: nat)
    requires sep != [] && from <= |s| && FindFrom(s, sep, from) == Some(i)
    requires Join(SplitFrom(s, sep, i + |sep|), sep) == s[i + |sep|..]
    ensures Join(SplitFrom(s, sep, from), sep) == s[from..]
  {
    FindFromFound(s, sep, from);
    SplitFromStep(s, sep, from, i);
    var rest := SplitFrom(s, sep, i + |sep|);
    var head, tail := s[from..i], s[i + |sep|..];
    var parts := SplitFrom(s, sep, from);
    JoinStep(parts, head, rest, tail, sep);
    SliceThree(s, from, i, i + |sep|);
    Reassemble(Join(parts, sep), s[from..], head, s[i..i + |sep|], tail, sep);
  }

  lemma JoinStep(parts: seq<string>, head: string, rest: seq<string>, tail: string, sep: string)
    requires rest != [] && parts == [head] + rest && Join(rest, sep) == tail
    ensures Join(parts, sep) == head + sep + tail
  {
    assert parts[1..] == rest;
  }

  lemma Reassemble(joined: string, whole: string, head: string, mid: string, tail: string, sep: string)
    requires joined == head + sep + tail && mid == sep && whole == head + mid + tail
    ensures joined == whole
  {
  }

  lemma SliceThree(s: string, a: nat, b: nat, c: nat)
    requires a <= b <= c <= |s|
    ensures s[a..] == s[a..b] + s[b..c] + s[c..]
  {
  }

  /** `Join(Split(s, sep), sep) == s`. */
  lemma SplitJoin(s: string, sep: string)
    requires sep != []
    ensures Join(Split(s, sep), sep) == s
  {
    SplitFromJoin(s, sep, 0);
  }

  /** Where the last part of `s[from..]` starts: just after the last separator, or at `from`. */
  function LastStart(s: string, sep: string, from: nat): (r: nat)
    requires sep != [] && from <= |s|
    ensures from <= r <= |s|
    decreases |s| - from
  {
    match FindFrom(s, sep, from)
    case None => from
    case Some(i) => LastStart(s, sep, i + |sep|)
  }

  /** The last part starts at `from` or right after a separator. */
  lemma {:induction false} LastStartAfterSep(s: string, sep: string, from: nat)
    requires sep != [] && from <= |s|
    ensures var r := LastStart(s, sep, from);
      r == from || (from + |sep| <= r && OccursAt(s, sep, r - |sep|))
    decreases |s| - from
  {
    var f := FindFrom(s, sep, from);
    if f.Some? {
      LastStartAfterSep(s, sep, f.value + |sep|);
      AfterSepFound(s, sep, from, f.value);
    } else {
      SplitFromEnd(s, sep, from);
    }
  }

  lemma AfterSepFound(s: string, sep: string, from: nat, i: nat)
    requires sep != [] && from <= |s| && FindFrom(s, sep, from) == Some(i)
    requires var r := LastStart(s, sep, i + |sep|);
      r == i + |sep| || (i + |sep| + |sep| <= r && OccursAt(s, sep, r - |sep|))
    ensures var r := LastStart(s, sep, from);
      r == from || (from + |sep| <= r && OccursAt(s, sep, r - |sep|))
  {
    SplitFromStep(s, sep, from, i);
    if LastStart(s, sep, i + |sep|) == i + |sep| {
      FindFromFound(s, sep, from);
      assert OccursAt(s, sep, i);
    }
  }

  /** No separator occurs from the start of the last part on. */
  lemma {:induction false} LastStartNoSep(s: string, sep: string, from: nat, k: nat)
    requires sep != [] && from <= |s| && LastStart(s, sep, from) <= k
    ensures !OccursAt(s, sep, k)
    decreases |s| - from
  {
    var f := FindFrom(s, sep, from);
    if f.Some? {
      if LastStart(s, sep, f.value + |sep|) <= k {
        LastStartNoSep(s, sep, f.value + |sep|, k);
      }
      NoSepFound(s, sep, from, f.value, k);
    } else {
      SplitFromEnd(s, sep, from);
      FindFromNone(s, sep, from, k);
    }
  }

  lemma NoSepFound(s: string, sep: string, from: nat, i: nat, k: nat)
    requires sep != [] && from <= |s| && FindFrom(s, sep, from) == Some(i)
    requires LastStart(s, sep, from) <= k
    requires LastStart(s, sep, i + |sep|) <= k ==> !OccursAt(s, sep, k)
    ensures !OccursAt(s, sep, k)
  {
    SplitFromStep(s, sep, from, i);
  }

  /** The last part of the split is the text after the last separator. */
  lemma {:induction false} SplitFromLast(s: string, sep: string, from: nat)
    requires sep != [] && from <= |s|
    ensures var parts := SplitFrom(s, sep, from); parts[|parts| - 1] == s[LastStart(s, sep, from)..]
    decreases |s| - from
  {
    var f := FindFrom(s, sep, from);
    if f.Some? {
      SplitFromLast(s, sep, f.value + |sep|);
      LastFound(s, sep, from, f.value);
    } else {
      SplitFromEnd(s, sep, from);
      assert SplitFrom(s, sep, from)[0] == s[from..];
    }
  }

  lemma LastFound(s: string, sep: string, from: nat, i: nat)
    requires sep != [] && from <= |s| && FindFrom(s, sep, from) == Some(i)
    requires var parts := SplitFrom(s, sep, i + |sep|); parts[|parts| - 1] == s[LastStart(s, sep, i + |sep|)..]
    ensures var parts := SplitFrom(s, sep, from); parts[|parts| - 1] == s[LastStart(s, sep, from)..]
  {
    SplitFromStep(s, sep, from, i);
    LastOfCons(SplitFrom(s, sep, from), s[from..i], SplitFrom(s, sep, i + |sep|));
  }

  lemma LastOfCons<T>(parts: seq<T>, x: T, rest: seq<T>)
    requires rest != [] && parts == [x] + rest
    ensures parts[|parts| - 1] == rest[|rest| - 1]
  {
  }

  /** One step of the split, after a separator found at `i`. */
  lemma SplitFromStep(s: string, sep: string, from: nat, i: nat)
    requires sep != [] && from <= |s|
    requires FindFrom(s, sep, from) == Some(i)
    ensures i + |sep| <= |s|
    ensures SplitFrom(s, sep, from) == [s[from..i]] + SplitFrom(s, sep, i + |sep|)
    ensures LastStart(s, sep, from) == LastStart(s, sep, i + |sep|)
  {
  }

  /** The split's end, when no separator follows. */
  lemma SplitFromEnd(s: string, sep: string, from: nat)
    requires sep != [] && from <= |s|
    requires FindFrom(s, sep, from) == None
    ensures SplitFrom(s, sep, from) == [s[from..]]
    ensures LastStart(s, sep, from) == from
  {
  }

  /** `parts[parts.length - 1]` where `parts = s.split(sep)`. */
  function LastPart(s: string, sep: string): (r: string)
    requires sep != []
  {
    var parts := Split(s, sep);
    parts[|parts| - 1]
  }

  /**
   * The last part is the suffix of `s` after its last separator: it holds no
   * separator, and it is either all of `s` or directly preceded by one.
   */
  lemma LastPartSpec(s: string, sep: string)
    requires sep != []
    ensures var k := LastStart(s, sep, 0); LastPart(s, sep) == s[k..] && (k == 0 || OccursAt(s, sep, k - |sep|))
    ensures !Contains(LastPart(s, sep), sep)
  {
    SplitFromLast(s, sep, 0);
    LastStartAfterSep(s, sep, 0);
    var k := LastStart(s, sep, 0);
    forall j | k <= j ensures !OccursAt(s, sep, j) {
      LastStartNoSep(s, sep, 0, j);
    }
    SuffixFree(s, sep, k);
  }

  /** A suffix starting after every occurrence of `sep` does not contain it. */
  lemma SuffixFree(s: string, sep: string, k: nat)
    requires k <= |s|
    requires forall j :: k <= j ==> !OccursAt(s, sep, j)
    ensures !Contains(s[k..], sep)
  {
    var r := s[k..];
    ContainsIff(r, sep);
    if Contains(r, sep) {
      var j :| OccursAt(r, sep, j);
      assert r[j..j + |sep|] == s[k + j..k + j + |sep|];
      assert OccursAt(s, sep, k + j);
    }
  }

  /** The decimal digit for `d`. */
  function Digit(d: nat): (c: char)
    requires d < 10
    ensures '0' <= c <= '9' && c as int - '0' as int == d
  {
    ('0' as int + d) as char
  }

  /** The first code point outside the Basic Multilingual Plane. */
  const FirstAstral: int := 0x1_0000

  /** How many UTF-16 code units encode `c`: two for a surrogate pair. */
  function Utf16Units(c: char): nat
  {
    if c as int >= FirstAstral then 2 else 1
  }

  /** JavaScript's `s.length`, which counts UTF-16 code units rather than characters. */
  function Utf16Length(s: string): (r: nat)
    ensures |s| <= r <= 2 * |s|
  {
    if s == [] then 0 else Utf16Units(s[0]) + Utf16Length(s[1..])
  }

  /** The length of a concatenation is the sum of the lengths. */
  lemma {:induction false} Utf16LengthAppend(a: string, b: string)
    ensures Utf16Length(a + b) == Utf16Length(a) + Utf16Length(b)
  {
    if a == [] {
      assert a + b == b;
    } else {
      assert (a + b)[0] == a[0];
      assert (a + b)[1..] == a[1..] + b;
      Utf16LengthAppend(a[1..], b);
    }
  }

  /** A string inside the Basic Multilingual Plane has one code unit per character. */
  lemma {:induction false} Utf16LengthBmp(s: string)
    requires forall k :: 0 <= k < |s| ==> s[k] as int < FirstAstral
    ensures Utf16Length(s) == |s|
  {
    if s != [] {
      assert forall k :: 0 <= k < |s[1..]| ==> s[1..][k] == s[k + 1];
      Utf16LengthBmp(s[1..]);
    }
  }

  /** The length exceeds the character count by exactly the number of characters outside the plane. */
  lemma {:induction false} Utf16LengthAstral(s: string)
    ensures Utf16Length(s) == |s| + |set k | 0 <= k < |s| && s[k] as int >= FirstAstral|
  {
    if s != [] {
      var n := |s| - 1;
      var init := s[..n];
      Utf16LengthAstral(init);
      Utf16LengthAppend(init, [s[n]]);
      assert init + [s[n]] == s;
      assert Utf16Length([s[n]]) == Utf16Units(s[n]) by {
        assert [s[n]][1..] == [];
      }
      var before := set k | 0 <= k < n && init[k] as int >= FirstAstral;
      var all := set k | 0 <= k < |s| && s[k] as int >= FirstAstral;
      assert n !in before;
      if s[n] as int >= FirstAstral {
        assert all == before + {n};
      } else {
        assert all == before;
      }
    }
  }

  /** A character outside the plane, such as an emoji, counts twice. */
  lemma EmojiLength()
    ensures Utf16Length("\U{1F600}") == 2
    ensures Utf16Length("\U{1F600}\U{1F600}\U{1F600}") == 6
    ensures Utf16Length("\U{1F600}\U{1F600}\U{1F600}\U{1F600}\U{1F600}") == 10
  {
    Utf16LengthAppend("\U{1F600}\U{1F600}", "\U{1F600}\U{1F600}\U{1F600}");
    assert "\U{1F600}\U{1F600}" + "\U{1F600}\U{1F600}\U{1F600}" == "\U{1F600}\U{1F600}\U{1F600}\U{1F600}\U{1F600}";
    assert "\U{1F600}\U{1F600}\U{1F600}"[1..] == "\U{1F600}\U{1F600}";
    assert "\U{1F600}\U{1F600}"[1..] == "\U{1F600}";
    assert "\U{1F600}"[1..] == "";
  }

  /** `${n}` for a natural number: its decimal digits, without leading zeros. */
  function NatToString(n: nat): (r: string)
    ensures |r| >= 1
    ensures (|r| == 1) <==> n < 10
    ensures r[|r| - 1] == Digit(n % 10)
  {
    if n < 10 then [Digit(n)] else NatToString(n / 10) + [Digit(n % 10)]
  }

  /** Different numbers render differently. */
  lemma {:induction false} NatToStringInjective(n: nat, m: nat)
    requires NatToString(n) == NatToString(m)
    ensures n == m
    decreases n
  {
    if n >= 10 {
      assert m >= 10;
      var a, b := NatToString(n), NatToString(m);
      assert a[..|a| - 1] == NatToString(n / 10);
      assert b[..|b| - 1] == NatToString(m / 10);
      NatToStringInjective(n / 10, m / 10);
      assert n % 10 == m % 10 by {
        assert Digit(n % 10) == Digit(m % 10);
      }
    }
  }
}
