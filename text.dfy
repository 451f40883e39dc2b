/** String operations the pipeline relies on, with the JavaScript
    semantics the source uses: the `\s` character class and `trim`,
    whitespace collapse, substring search, ASCII lower-casing, decimal
    printing, the greedy bracket-region match and `split`/`join`. */
module Text {
  import opened Types

  // ---------------------------------------------------------------------
  // Whitespace, trimming and collapse

  /** The characters JavaScript's `\s` and `String.prototype.trim` treat as
      white space (WhiteSpace and LineTerminator of ECMA-262). */
  predicate IsSpace(c: char)
  {
    c == ' ' || c == '\t' || c == '\n' || c == '\r' || c == '\U{000B}' || c == '\U{000C}'
    || c == '\U{00A0}' || c == '\U{1680}' || ('\U{2000}' <= c <= '\U{200A}')
    || c == '\U{2028}' || c == '\U{2029}' || c == '\U{202F}' || c == '\U{205F}'
    || c == '\U{3000}' || c == '\U{FEFF}'
  }

  /** The non-white-space characters of `s`, in order: the visible text. */
  function NonSpace(s: string): string
  {
    if s == [] then [] else (if IsSpace(s[0]) then [] else [s[0]]) + NonSpace(s[1..])
  }

  lemma {:induction false} NonSpaceAppend(a: string, b: string)
    ensures NonSpace(a + b) == NonSpace(a) + NonSpace(b)
  {
    if a == [] {
      assert a + b == b;
    } else {
      assert (a + b)[0] == a[0];
      assert (a + b)[1..] == a[1..] + b;
      NonSpaceAppend(a[1..], b);
    }
  }

  /** Every white-space character of `s` is a plain space. */
  ghost predicate SpacesPlain(s: string)
  {
    forall i :: 0 <= i < |s| && IsSpace(s[i]) ==> s[i] == ' '
  }

  /** No two neighbouring characters of `s` are both white space. */
  ghost predicate NoDoubleSpace(s: string)
  {
    forall i :: 0 <= i < |s| - 1 ==> !(IsSpace(s[i]) && IsSpace(s[i + 1]))
  }

  /** No white space at either end of `s`. */
  ghost predicate Trimmed(s: string)
  {
    s == [] || (!IsSpace(s[0]) && !IsSpace(s[|s| - 1]))
  }

  /** The shape of `replace(/\s+/g, ' ').trim()`'s result. */
  ghost predicate Collapsed(s: string)
  {
    SpacesPlain(s) && NoDoubleSpace(s) && Trimmed(s)
  }

  /** `trimStart`: drops the leading white space and nothing else. */
  function TrimStart(s: string): (r: string)
    ensures |r| <= |s| && r == s[|s| - |r|..]
    ensures forall i :: 0 <= i < |s| - |r| ==> IsSpace(s[i])
    ensures r == [] || !IsSpace(r[0])
    ensures NonSpace(r) == NonSpace(s)
  {
    if s != [] && IsSpace(s[0]) then TrimStart(s[1..]) else s
  }

  /** `trimEnd`: drops the trailing white space and nothing else. */
  function TrimEnd(s: string): (r: string)
    ensures |r| <= |s| && r == s[..|r|]
    ensures forall i :: |r| <= i < |s| ==> IsSpace(s[i])
    ensures r == [] || !IsSpace(r[|r| - 1])
    ensures NonSpace(r) == NonSpace(s)
  {
    if s != [] && IsSpace(s[|s| - 1]) then
      var r := TrimEnd(s[..|s| - 1]);
      assert s == s[..|s| - 1] + [s[|s| - 1]];
      NonSpaceAppend(s[..|s| - 1], [s[|s| - 1]]);
      r
    else s
  }

  /** A slice of a string keeps the string's whitespace shape. */
  lemma SliceShape(q: string, a: nat, b: nat)
    requires a <= b <= |q|
    ensures SpacesPlain(q) ==> SpacesPlain(q[a..b])
    ensures NoDoubleSpace(q) ==> NoDoubleSpace(q[a..b])
  {
    var r := q[a..b];
    if NoDoubleSpace(q) {
      forall i | 0 <= i < |r| - 1 ensures !(IsSpace(r[i]) && IsSpace(r[i + 1])) {
        assert r[i] == q[a + i] && r[i + 1] == q[a + i + 1];
      }
    }
    if SpacesPlain(q) {
      forall i | 0 <= i < |r| && IsSpace(r[i]) ensures r[i] == ' ' {
        assert r[i] == q[a + i];
      }
    }
  }

  /** `String.prototype.trim`. */
  function Trim(s: string): (r: string)
    ensures |r| <= |s|
    ensures Trimmed(r)
    ensures NonSpace(r) == NonSpace(s)
    ensures SpacesPlain(s) ==> SpacesPlain(r)
    ensures NoDoubleSpace(s) ==> NoDoubleSpace(r)
  {
    var t := TrimStart(s);
    SliceShape(s, |s| - |t|, |s|);
    var r := TrimEnd(t);
    SliceShape(t, 0, |r|);
    r
  }

  /** `replace(/\s+/g, ' ')`: every maximal run of white space becomes one
      plain space. */
  function Squeeze(s: string): (r: string)
    ensures |r| <= |s|
    ensures SpacesPlain(r) && NoDoubleSpace(r)
    ensures s != [] ==> r != [] && (IsSpace(r[0]) <==> IsSpace(s[0]))
    ensures NonSpace(r) == NonSpace(s)
    decreases |s|
  {
    if s == [] then []
    else if IsSpace(s[0]) then
      var rest := Squeeze(TrimStart(s[1..]));
      assert NonSpace([' '] + rest) == NonSpace(rest);
      [' '] + rest
    else
      var rest := Squeeze(s[1..]);
      assert NonSpace([s[0]] + rest) == [s[0]] + NonSpace(rest);
      [s[0]] + rest
  }

  /** `s.replace(/\s+/g, ' ').trim()`. */
  function Normalize(s: string): string
  {
    Trim(Squeeze(s))
  }

  /** Collapse plus trim yields a collapsed string with the same visible
      text. */
  lemma NormalizeShape(s: string)
    ensures Collapsed(Normalize(s))
    ensures NonSpace(Normalize(s)) == NonSpace(s)
  {
  }

  /** A collapsed string is left alone by the whitespace collapse. */
  lemma {:induction false} SqueezeFixed(s: string)
    requires SpacesPlain(s) && NoDoubleSpace(s)
    ensures Squeeze(s) == s
    decreases |s|
  {
    if s != [] {
      assert SpacesPlain(s[1..]) && NoDoubleSpace(s[1..]) by {
        forall i | 0 <= i < |s[1..]| - 1 ensures !(IsSpace(s[1..][i]) && IsSpace(s[1..][i + 1])) {
          assert s[1..][i] == s[i + 1] && s[1..][i + 1] == s[i + 2];
        }
      }
      if IsSpace(s[0]) {
        assert s[1..] == [] || !IsSpace(s[1]);
        assert TrimStart(s[1..]) == s[1..];
        SqueezeFixed(s[1..]);
        assert s == [' '] + s[1..];
      } else {
        SqueezeFixed(s[1..]);
        assert s == [s[0]] + s[1..];
      }
    }
  }

  /** Collapse plus trim is idempotent. */
  lemma NormalizeIdempotent(s: string)
    ensures Normalize(Normalize(s)) == Normalize(s)
  {
    var n := Normalize(s);
    NormalizeShape(s);
    SqueezeFixed(n);
    assert TrimStart(n) == n;
    assert TrimEnd(n) == n;
  }

  /** `s.slice(0, n)` for `n >= 0`. */
  function Prefix(s: string, n: nat): (r: string)
    ensures |r| == if |s| < n then |s| else n
    ensures r == s[..|r|]
  {
    if |s| <= n then s else s[..n]
  }

  /** Cutting a collapsed text keeps it collapsed, except that the cut may
      end right after a space. */
  lemma PrefixCollapsed(s: string, n: nat)
    requires Collapsed(s)
    ensures SpacesPlain(Prefix(s, n)) && NoDoubleSpace(Prefix(s, n))
    ensures Prefix(s, n) == [] || !IsSpace(Prefix(s, n)[0])
    ensures |s| <= n ==> Prefix(s, n) == s
  {
    var r := Prefix(s, n);
    assert forall i :: 0 <= i < |r| ==> r[i] == s[i];
  }

  // ---------------------------------------------------------------------
  // Substring search and case

  /** `sub` occurs in `text` starting at position `i`. */
  ghost predicate OccursAt(text: string, sub: string, i: int)
  {
    0 <= i && i + |sub| <= |text| && text[i..i + |sub|] == sub
  }

  /** `String.prototype.includes`. */
  function Contains(text: string, sub: string): bool
    decreases |text|
  {
    if sub <= text then true
    else if text == [] then false
    else Contains(text[1..], sub)
  }

  /** `includes` holds exactly when the substring occurs somewhere. */
  lemma {:induction false} ContainsIff(text: string, sub: string)
    ensures Contains(text, sub) <==> exists i :: OccursAt(text, sub, i)
    decreases |text|
  {
    if sub <= text {
      assert OccursAt(text, sub, 0);
    } else {
      assert !OccursAt(text, sub, 0);
      if text == [] {
        assert forall i :: !OccursAt(text, sub, i);
      } else {
        ContainsIff(text[1..], sub);
        forall i | 1 <= i
          ensures OccursAt(text, sub, i) <==> OccursAt(text[1..], sub, i - 1)
        {
          if i + |sub| <= |text| {
            assert text[i..i + |sub|] == text[1..][i - 1..i - 1 + |sub|];
          }
        }
        if Contains(text, sub) {
          var k :| OccursAt(text[1..], sub, k);
          assert OccursAt(text, sub, k + 1);
        }
      }
    }
  }

  function LowerChar(c: char): char
  {
    if 'A' <= c <= 'Z' then (c as int + 32) as char else c
  }

  /** `toLowerCase`, on the ASCII letters. */
  function Lower(s: string): (r: string)
    ensures |r| == |s|
    ensures forall i :: 0 <= i < |s| ==> r[i] == LowerChar(s[i])
  {
    seq(|s|, i requires 0 <= i < |s| => LowerChar(s[i]))
  }

  // ---------------------------------------------------------------------
  // Decimal printing

  function DigitChar(d: nat): (c: char)
    requires d < 10
    ensures '0' <= c <= '9' && c as int - '0' as int == d
  {
    ('0' as int + d) as char
  }

  /** The decimal rendering of `n`, as JavaScript's template literals print it. */
  function NatToString(n: nat): string
  {
    if n < 10 then [DigitChar(n)] else NatToString(n / 10) + [DigitChar(n % 10)]
  }

  /** The value of a string of decimal digits, most significant first. */
  ghost function DigitsValue(s: string): int
  {
    if s == [] then 0 else DigitsValue(s[..|s| - 1]) * 10 + (s[|s| - 1] as int - '0' as int)
  }

  /** The rendering is a non-empty string of digits, without a leading zero
      unless it is "0", and reading it back gives the number. */
  lemma {:induction false} NatToStringDigits(n: nat)
    ensures |NatToString(n)| > 0
    ensures forall i :: 0 <= i < |NatToString(n)| ==> '0' <= NatToString(n)[i] <= '9'
    ensures NatToString(n)[0] == '0' <==> n == 0
    ensures DigitsValue(NatToString(n)) == n
  {
    var r := NatToString(n);
    if n < 10 {
      assert r[..|r| - 1] == [];
    } else {
      NatToStringDigits(n / 10);
      var init := NatToString(n / 10);
      assert r == init + [DigitChar(n % 10)];
      assert r[..|r| - 1] == init;
      assert r[0] == init[0];
    }
  }

  // ---------------------------------------------------------------------
  // The greedy bracket region `/\[[\s\S]*\]/` (and its brace twin)

  function FirstIndex(s: string, c: char): (r: Option<nat>)
    ensures r.Some? ==> r.value < |s| && s[r.value] == c && forall k :: 0 <= k < r.value ==> s[k] != c
    ensures r.None? ==> forall k :: 0 <= k < |s| ==> s[k] != c
  {
    if s == [] then None
    else if s[0] == c then Some(0)
    else match FirstIndex(s[1..], c)
      case None => None
      case Some(i) => Some(i + 1)
  }

  function LastIndex(s: string, c: char): (r: Option<nat>)
    ensures r.Some? ==> r.value < |s| && s[r.value] == c && forall k :: r.value < k < |s| ==> s[k] != c
    ensures r.None? ==> forall k :: 0 <= k < |s| ==> s[k] != c
  {
    if s == [] then None
    else if s[|s| - 1] == c then Some(|s| - 1)
    else LastIndex(s[..|s| - 1], c)
  }

  /** What `text.match(/\[[\s\S]*\]/)` returns with `open = '['` and
      `close = ']'`: the text from the first `open` to the last `close`
      after it, or nothing when no `close` follows the first `open`. */
  function Region(s: string, open: char, close: char): Option<string>
  {
    match FirstIndex(s, open)
    case None => None
    case Some(i) =>
      match LastIndex(s[i + 1..], close)
      case None => None
      case Some(j) => Some(s[i..i + j + 2])
  }

  /** There is a match exactly when some `open` precedes some `close`. */
  lemma RegionExists(s: string, open: char, close: char)
    ensures Region(s, open, close).Some? <==>
            exists i, j :: 0 <= i < j < |s| && s[i] == open && s[j] == close
  {
    match FirstIndex(s, open)
    case None =>
    case Some(i) =>
      match LastIndex(s[i + 1..], close)
      case None =>
        forall i', j' | 0 <= i' < j' < |s| && s[i'] == open ensures s[j'] != close {
          assert s[j'] == s[i + 1..][j' - i - 1];
        }
      case Some(j) =>
        assert s[i + 1 + j] == s[i + 1..][j];
  }

  /** The match starts at the first `open` and ends at the last `close`. */
  lemma RegionBounds(s: string, open: char, close: char)
    requires Region(s, open, close).Some?
    ensures exists i, j ::
      && 0 <= i < j < |s| && s[i] == open && s[j] == close
      && Region(s, open, close).value == s[i..j + 1]
      && (forall k :: 0 <= k < i ==> s[k] != open)
      && (forall k :: j < k < |s| ==> s[k] != close)
  {
    var i := FirstIndex(s, open).value;
    var j := LastIndex(s[i + 1..], close).value;
    assert s[i + 1 + j] == s[i + 1..][j];
    forall k | i + 1 + j < k < |s| ensures s[k] != close {
      assert s[k] == s[i + 1..][k - i - 1];
    }
  }

  /** The match is delimited by `open` and `close`. */
  lemma RegionDelimited(s: string, open: char, close: char)
    requires Region(s, open, close).Some?
    ensures var r := Region(s, open, close).value; |r| >= 2 && r[0] == open && r[|r| - 1] == close
  {
    var i := FirstIndex(s, open).value;
    var j := LastIndex(s[i + 1..], close).value;
    assert s[i + 1 + j] == s[i + 1..][j];
  }

  // ---------------------------------------------------------------------
  // split / join

  /** The first position at or after `from` where `sep` occurs. */
  function FindFrom(s: string, sep: string, from: nat): (r: Option<nat>)
    requires from <= |s|
    ensures r.Some? ==> from <= r.value && OccursAt(s, sep, r.value)
    ensures r.Some? ==> forall k :: from <= k < r.value ==> !OccursAt(s, sep, k)
    ensures r.None? ==> forall k :: from <= k ==> !OccursAt(s, sep, k)
    decreases |s| - from
  {
    if from + |sep| > |s| then None
    else if s[from..from + |sep|] == sep then Some(from)
    else if from == |s| then None
    else FindFrom(s, sep, from + 1)
  }

  function Find(s: string, sep: string): (r: Option<nat>)
    ensures r.Some? ==> OccursAt(s, sep, r.value) && forall k :: 0 <= k < r.value ==> !OccursAt(s, sep, k)
    ensures r.None? ==> forall k :: !OccursAt(s, sep, k)
  {
    FindFrom(s, sep, 0)
  }

  /** `String.prototype.split` with a non-empty string separator. */
  function Split(s: string, sep: string): (r: seq<string>)
    requires |sep| > 0
    ensures |r| > 0
    decreases |s|
  {
    match Find(s, sep)
    case None => [s]
    case Some(i) => [s[..i]] + Split(s[i + |sep|..], sep)
  }

  /** `Array.prototype.join`. */
  function Join(parts: seq<string>, sep: string): string
  {
    if |parts| == 0 then ""
    else if |parts| == 1 then parts[0]
    else parts[0] + sep + Join(parts[1..], sep)
  }

  /** Joining the pieces of a split with the same separator restores the text. */
  lemma {:induction false} JoinSplit(s: string, sep: string)
    requires |sep| > 0
    ensures Join(Split(s, sep), sep) == s
    decreases |s|
  {
    match Find(s, sep)
    case None =>
    case Some(i) =>
      var rest := s[i + |sep|..];
      JoinSplit(rest, sep);
      assert s == s[..i] + sep + rest;
  }

  /** The text after the first occurrence of `sep`, or "" without one. */
  function AfterFirst(s: string, sep: string): string
  {
    match Find(s, sep)
    case None => ""
    case Some(i) => s[i + |sep|..]
  }

  /** `s.split(sep).slice(1).join(sep)` is the text after the first `sep`. */
  lemma DropFirstSegment(s: string, sep: string)
    requires |sep| > 0
    ensures Join(Split(s, sep)[1..], sep) == AfterFirst(s, sep)
  {
    match Find(s, sep)
    case None =>
      assert Split(s, sep) == [s];
    case Some(i) =>
      assert Split(s, sep)[1..] == Split(s[i + |sep|..], sep);
      JoinSplit(s[i + |sep|..], sep);
  }

  /** When no occurrence of `sep` starts inside `a`, the first separator of
      `a + sep + b` is the one after `a`, and what follows it is `b`. */
  lemma AfterFirstJoined(a: string, sep: string, b: string)
    requires |sep| > 0
    requires forall i :: 0 <= i < |a| ==> !OccursAt(a + sep, sep, i)
    ensures AfterFirst(a + sep + b, sep) == b
  {
    var s := a + sep + b;
    assert s[|a|..|a| + |sep|] == sep;
    assert OccursAt(s, sep, |a|);
    forall k | 0 <= k < |a|
      ensures !OccursAt(s, sep, k)
    {
      assert !OccursAt(a + sep, sep, k);
      assert s[k..k + |sep|] == (a + sep)[k..k + |sep|];
    }
    assert s[|a| + |sep|..] == b;
  }
}
