/**
 * The Python built-ins on strings and lists that the chat relay and its
 * widgets rely on: `str.strip`, `str(n)` for a natural number, `int(s)`
 * for a string, `str.split`, `str.join`, `str.replace`, `str.format`'s
 * left justification, `list.index` and `list.remove`.
 *
 * Characters are Dafny `char`s; whitespace and digits are the ASCII ones.
 */
module PyText {
  import opened Wrappers

  /** Python's `str.isspace` on ASCII: space, \t, \n, \v, \f, \r and the separators 0x1c to 0x1f. */
  predicate IsSpace(c: char) {
    var k := c as int;
    k == 32 || 9 <= k <= 13 || 28 <= k <= 31
  }

  predicate IsDigit(c: char) {
    '0' <= c <= '9'
  }

  predicate AllDigits(s: string) {
    forall i :: 0 <= i < |s| ==> IsDigit(s[i])
  }

  // ---------------------------------------------------------------------------
  // str.strip
  // ---------------------------------------------------------------------------

  /** Drops the longest prefix of characters satisfying `drop`. */
  function StripLeft(s: string, drop: char -> bool): (r: string)
    ensures |r| <= |s| && r == s[|s| - |r|..]
    ensures forall i :: 0 <= i < |s| - |r| ==> drop(s[i])
    ensures r != [] ==> !drop(r[0])
    decreases |s|
  {
    if s != [] && drop(s[0]) then StripLeft(s[1..], drop) else s
  }

  /** Drops the longest suffix of characters satisfying `drop`. */
  function StripRight(s: string, drop: char -> bool): (r: string)
    ensures |r| <= |s| && r == s[..|r|]
    ensures forall i :: |r| <= i < |s| ==> drop(s[i])
    ensures r != [] ==> !drop(r[|r| - 1])
    decreases |s|
  {
    if s != [] && drop(s[|s| - 1]) then StripRight(s[..|s| - 1], drop) else s
  }

  /** `s.strip(chars)`: both ends; `s.strip()` is `Strip(s, IsSpace)`. */
  function Strip(s: string, drop: char -> bool): string
  {
    StripRight(StripLeft(s, drop), drop)
  }

  /** A character that is not dropped survives the strip. */
  lemma StripKeeps(s: string, drop: char -> bool, i: int)
    requires 0 <= i < |s| && !drop(s[i])
    ensures s[i] in Strip(s, drop)
  {
    var l := StripLeft(s, drop);
    var r := StripRight(l, drop);
    var off := |s| - |l|;
    assert off <= i && s[i] == l[i - off];
    assert r[i - off] == l[i - off];
  }

  /** Stripping a core whose two ends are kept, surrounded by dropped characters, gives back the core. */
  lemma StripPadded(left: string, core: string, right: string, drop: char -> bool)
    requires forall i :: 0 <= i < |left| ==> drop(left[i])
    requires forall i :: 0 <= i < |right| ==> drop(right[i])
    requires core != [] && !drop(core[0]) && !drop(core[|core| - 1])
    ensures Strip(left + core + right, drop) == core
  {
    assert left + core + right == left + (core + right);
    StripLeftPrefix(left, core + right, drop);
    StripRightSuffix(core, right, drop);
  }

  lemma {:induction false} StripLeftPrefix(left: string, rest: string, drop: char -> bool)
    requires forall i :: 0 <= i < |left| ==> drop(left[i])
    requires rest != [] && !drop(rest[0])
    ensures StripLeft(left + rest, drop) == rest
    decreases |left|
  {
    if left == [] {
      assert left + rest == rest;
    } else {
      assert (left + rest)[0] == left[0] && (left + rest)[1..] == left[1..] + rest;
      StripLeftPrefix(left[1..], rest, drop);
    }
  }

  lemma {:induction false} StripRightSuffix(rest: string, right: string, drop: char -> bool)
    requires forall i :: 0 <= i < |right| ==> drop(right[i])
    requires rest != [] && !drop(rest[|rest| - 1])
    ensures StripRight(rest + right, drop) == rest
    decreases |right|
  {
    if right == [] {
      assert rest + right == rest;
    } else {
      var s := rest + right;
      assert s[..|s| - 1] == rest + right[..|right| - 1];
      StripRightSuffix(rest, right[..|right| - 1], drop);
    }
  }

  // ---------------------------------------------------------------------------
  // str(n) and int(s)
  // ---------------------------------------------------------------------------

  function Digit(d: nat): (c: char)
    requires d < 10
    ensures IsDigit(c)
  {
    (48 + d) as char
  }

  /** `str(n)` for a natural number: its decimal digits, most significant first. */
  function Decimal(n: nat): (r: string)
    ensures |r| >= 1 && AllDigits(r)
    ensures |r| > 1 ==> r[0] != '0'
    decreases n
  {
    if n < 10 then [Digit(n)] else Decimal(n / 10) + [Digit(n % 10)]
  }

  /** The number a string of decimal digits denotes. */
  function ValueOf(s: string): nat
    requires AllDigits(s)
  {
    if s == [] then 0 else ValueOf(s[..|s| - 1]) * 10 + (s[|s| - 1] as int - 48)
  }

  function Pow10(k: nat): (p: nat)
    ensures p >= 1
  {
    if k == 0 then 1 else 10 * Pow10(k - 1)
  }

  /** Reading the digits of `str(n)` back gives `n`. */
  lemma {:induction false} ValueOfDecimal(n: nat)
    ensures ValueOf(Decimal(n)) == n
  {
    if n >= 10 {
      ValueOfDecimal(n / 10);
      var s := Decimal(n);
      assert s[..|s| - 1] == Decimal(n / 10);
    }
  }

  /** `str(n)` has at most `k` digits exactly when `n < 10^k`. */
  lemma {:induction false} DecimalLength(n: nat, k: nat)
    requires k >= 1
    ensures |Decimal(n)| <= k <==> n < Pow10(k)
  {
    if k > 1 {
      if n >= 10 {
        DecimalLength(n / 10, k - 1);
      } else {
        DecimalLength(n, k - 1);
      }
    }
  }

  /** Python accepts one underscore between two digits (`int("1_000")`). */
  predicate GroupedAt(t: string, i: int)
    requires 0 < i < |t| - 1
  {
    IsDigit(t[i]) || (t[i] == '_' && IsDigit(t[i - 1]) && IsDigit(t[i + 1]))
  }

  /** The digit strings `int()` accepts after the sign: digits, single underscores between digits. */
  predicate IsGrouped(t: string) {
    && |t| > 0
    && IsDigit(t[0])
    && IsDigit(t[|t| - 1])
    && forall i | 0 < i < |t| - 1 :: GroupedAt(t, i)
  }

  function DropUnderscores(t: string): (r: string)
    ensures (forall i :: 0 <= i < |t| ==> IsDigit(t[i]) || t[i] == '_') ==> AllDigits(r)
    ensures AllDigits(t) ==> r == t
  {
    if t == [] then [] else (if t[0] == '_' then [] else [t[0]]) + DropUnderscores(t[1..])
  }

  function ParseUnsigned(t: string): (r: Option<nat>)
  {
    if IsGrouped(t) then
      assert forall i :: 0 <= i < |t| ==> IsDigit(t[i]) || t[i] == '_' by {
        forall i | 0 <= i < |t| ensures IsDigit(t[i]) || t[i] == '_' {
          if 0 < i < |t| - 1 { assert GroupedAt(t, i); }
        }
      }
      Some(ValueOf(DropUnderscores(t)))
    else None
  }

  /** `int(s)` for a `str` argument; `None` is the `ValueError` it raises. */
  function ParseInt(s: string): (r: Option<int>)
  {
    var t := Strip(s, IsSpace);
    if |t| > 0 && (t[0] == '+' || t[0] == '-') then
      match ParseUnsigned(t[1..])
      case None => None
      case Some(v) => Some(if t[0] == '-' then -(v as int) else v as int)
    else
      ParseUnsigned(t)
  }

  /** `int(str(n)) == n`. */
  lemma ParseIntOfDecimal(n: nat)
    ensures ParseInt(Decimal(n)) == Some(n)
  {
    ParseIntDecimal([], n, []);
    assert [] + Decimal(n) + [] == Decimal(n);
  }

  /** `int()` reads `str(n)` back, whatever whitespace surrounds it. */
  lemma ParseIntDecimal(left: string, n: nat, right: string)
    requires forall i :: 0 <= i < |left| ==> IsSpace(left[i])
    requires forall i :: 0 <= i < |right| ==> IsSpace(right[i])
    ensures ParseInt(left + Decimal(n) + right) == Some(n)
  {
    var d := Decimal(n);
    StripPadded(left, d, right, IsSpace);
    assert IsGrouped(d) by {
      forall i | 0 < i < |d| - 1 ensures GroupedAt(d, i) {
        assert IsDigit(d[i]);
      }
    }
    assert d[0] != '+' && d[0] != '-' by { assert IsDigit(d[0]); }
    assert ParseUnsigned(d) == Some(ValueOf(d));
    ValueOfDecimal(n);
  }

  /** A whitespace-only string (in particular an empty read) is not a number. */
  lemma ParseIntBlank(s: string)
    requires forall i :: 0 <= i < |s| ==> IsSpace(s[i])
    ensures ParseInt(s) == None
  {
    var l := StripLeft(s, IsSpace);
    assert Strip(s, IsSpace) == StripRight(l, IsSpace);
  }

  /** Whatever `int()` accepts is made of digits, underscores, signs and whitespace only. */
  lemma ParseIntCharset(s: string, i: int)
    requires ParseInt(s).Some?
    requires 0 <= i < |s|
    ensures IsDigit(s[i]) || s[i] == '_' || s[i] == '+' || s[i] == '-' || IsSpace(s[i])
  {
    var t := Strip(s, IsSpace);
    var signed := |t| > 0 && (t[0] == '+' || t[0] == '-');
    var u := if signed then t[1..] else t;
    assert IsGrouped(u);
    if !IsSpace(s[i]) {
      StripKeeps(s, IsSpace, i);
      var j :| 0 <= j < |t| && t[j] == s[i];
      if !signed {
        GroupedChar(u, j);
      } else if j > 0 {
        assert u[j - 1] == t[j];
        GroupedChar(u, j - 1);
      }
    }
  }

  /** Every character of a grouped digit string is a digit or an underscore. */
  lemma GroupedChar(u: string, k: int)
    requires IsGrouped(u) && 0 <= k < |u|
    ensures IsDigit(u[k]) || u[k] == '_'
  {
    if 0 < k < |u| - 1 { assert GroupedAt(u, k); }
  }

  // ---------------------------------------------------------------------------
  // f"{s:<width}"
  // ---------------------------------------------------------------------------

  /** Left justification as `format` does it: pad with spaces on the right, never truncate. */
  function LeftJustify(s: string, width: nat): (r: string)
    ensures |r| == if |s| < width then width else |s|
    ensures r[..|s|] == s
    ensures forall i :: |s| <= i < |r| ==> r[i] == ' '
  {
    if |s| < width then s + seq(width - |s|, _ => ' ') else s
  }

  // ---------------------------------------------------------------------------
  // str.split, str.join, str.replace
  // ---------------------------------------------------------------------------

  /** `s.split(sep)` for a non-empty separator: left to right, non-overlapping. */
  function Split(s: string, sep: string): (parts: seq<string>)
    requires |sep| > 0
    ensures |parts| >= 1
    decreases |s|
  {
    if |s| < |sep| then [s]
    else if s[..|sep|] == sep then [""] + Split(s[|sep|..], sep)
    else
      var rest := Split(s[1..], sep);
      [[s[0]] + rest[0]] + rest[1..]
  }

  /** `sep.join(parts)`. */
  function Join(parts: seq<string>, sep: string): string
  {
    if |parts| == 0 then ""
    else if |parts| == 1 then parts[0]
    else parts[0] + sep + Join(parts[1..], sep)
  }

  /** `s.replace(pat, rep)` for a non-empty `pat`. */
  function Replace(s: string, pat: string, rep: string): string
    requires |pat| > 0
  {
    Join(Split(s, pat), rep)
  }

  /** Joining the pieces of a split with the same separator gives the string back. */
  lemma {:induction false} JoinSplit(s: string, sep: string)
    requires |sep| > 0
    ensures Join(Split(s, sep), sep) == s
    decreases |s|
  {
    if |s| < |sep| {
    } else if s[..|sep|] == sep {
      var tail := s[|sep|..];
      var rest := Split(tail, sep);
      assert Split(s, sep) == [""] + rest;
      JoinSplit(tail, sep);
      JoinCons("", rest, sep);
      assert s == sep + tail;
    } else {
      var tail := s[1..];
      var rest := Split(tail, sep);
      assert Split(s, sep) == [[s[0]] + rest[0]] + rest[1..];
      JoinSplit(tail, sep);
      JoinExtendFirst(s[0], rest, sep);
      assert s == [s[0]] + tail;
    }
  }

  lemma JoinCons(p: string, rest: seq<string>, sep: string)
    requires rest != []
    ensures Join([p] + rest, sep) == p + sep + Join(rest, sep)
  {
    assert ([p] + rest)[1..] == rest;
  }

  lemma JoinExtendFirst(c: char, parts: seq<string>, sep: string)
    requires parts != []
    ensures Join([[c] + parts[0]] + parts[1..], sep) == [c] + Join(parts, sep)
  {
    var q := [[c] + parts[0]] + parts[1..];
    assert q[1..] == parts[1..];
  }

  /** A string without the separator's first character is not split. */
  lemma {:induction false} SplitNone(s: string, sep: string)
    requires |sep| > 0 && sep[0] !in s
    ensures Split(s, sep) == [s]
    decreases |s|
  {
    if |s| >= |sep| {
      assert s[..|sep|][0] == s[0];
      SplitNone(s[1..], sep);
      assert s == [s[0]] + s[1..];
    }
  }

  /** The first separator after a stretch free of its first character ends the first piece. */
  lemma {:induction false} SplitFirst(x: string, sep: string, y: string)
    requires |sep| > 0 && sep[0] !in x
    ensures Split(x + sep + y, sep) == [x] + Split(y, sep)
    decreases |x|
  {
    var s := x + sep + y;
    if x == [] {
      assert s[..|sep|] == sep && s[|sep|..] == y;
    } else {
      assert s[..|sep|][0] == x[0];
      assert s[1..] == x[1..] + sep + y;
      SplitFirst(x[1..], sep, y);
      assert [x[0]] + x[1..] == x;
    }
  }

  /** Splitting on one character yields one more piece than there are occurrences of it. */
  lemma {:induction false} SplitCount(s: string, c: char)
    ensures |Split(s, [c])| == Count(s, c) + 1
    decreases |s|
  {
    if |s| >= 1 {
      SplitCount(s[1..], c);
      if s[..1] == [c] {
        assert s[1..] == s[|[c]|..];
      }
    }
  }

  function Count(s: string, c: char): nat
  {
    if s == [] then 0 else (if s[0] == c then 1 else 0) + Count(s[1..], c)
  }

  /** `replace` puts the new text where the old text stood, once, when nothing else resembles it. */
  lemma ReplaceOnce(x: string, pat: string, y: string, rep: string)
    requires |pat| > 0 && pat[0] !in x && pat[0] !in y
    ensures Replace(x + pat + y, pat, rep) == x + rep + y
  {
    SplitFirst(x, pat, y);
    SplitNone(y, pat);
    assert Split(x + pat + y, pat) == [x, y];
    assert [x, y][1..] == [y];
    assert Join([x, y], rep) == x + rep + Join([y], rep);
  }

  /** `replace` leaves a string without the old text's first character alone. */
  lemma ReplaceNone(s: string, pat: string, rep: string)
    requires |pat| > 0 && pat[0] !in s
    ensures Replace(s, pat, rep) == s
  {
    SplitNone(s, pat);
  }

  /** Deleting a character with `replace(c, '')` keeps the stretch before its first occurrence. */
  lemma DeleteFirst(x: string, c: char, y: string)
    requires c !in x
    ensures Replace(x + [c] + y, [c], "") == x + Replace(y, [c], "")
  {
    SplitFirst(x, [c], y);
    var rest := Split(y, [c]);
    assert ([x] + rest)[1..] == rest;
  }

  /** Splitting a join gives the pieces back when none of them holds the separator's first character. */
  lemma {:induction false} SplitJoin(parts: seq<string>, sep: string)
    requires |sep| > 0 && parts != []
    requires forall i :: 0 <= i < |parts| ==> sep[0] !in parts[i]
    ensures Split(Join(parts, sep), sep) == parts
    decreases |parts|
  {
    if |parts| == 1 {
      SplitNone(parts[0], sep);
    } else {
      var rest := parts[1..];
      assert Join(parts, sep) == parts[0] + sep + Join(rest, sep);
      SplitFirst(parts[0], sep, Join(rest, sep));
      assert forall i :: 0 <= i < |rest| ==> rest[i] == parts[i + 1];
      SplitJoin(rest, sep);
      assert parts == [parts[0]] + rest;
    }
  }

  /** Deleting a character with `replace(c, '')` keeps a stretch free of it in front. */
  lemma DeleteAfter(x: string, c: char, y: string)
    requires c !in x
    ensures Replace(x + y, [c], "") == x + Replace(y, [c], "")
  {
    if c in y {
      var i := FirstIndex(y, c);
      var y1, y2 := y[..i], y[i + 1..];
      assert y == y1 + [c] + y2;
      assert x + y == (x + y1) + [c] + y2;
      DeleteFirst(x + y1, c, y2);
      DeleteFirst(y1, c, y2);
    } else {
      ReplaceNone(x + y, [c], "");
      ReplaceNone(y, [c], "");
    }
  }

  // ---------------------------------------------------------------------------
  // list.index and list.remove
  // ---------------------------------------------------------------------------

  /** `s.index(x)`: the position of the first occurrence. */
  function FirstIndex<T(==)>(s: seq<T>, x: T): (i: nat)
    requires x in s
    ensures i < |s| && s[i] == x && x !in s[..i]
  {
    if s[0] == x then 0
    else
      var j := FirstIndex(s[1..], x);
      assert s[..j + 1] == [s[0]] + s[1..][..j];
      j + 1
  }

  /** `s.remove(x)`: delete the first occurrence, keep everything else in order. */
  function RemoveFirst<T(==)>(s: seq<T>, x: T): seq<T>
    requires x in s
  {
    if s[0] == x then s[1..] else [s[0]] + RemoveFirst(s[1..], x)
  }

  /** `remove` cuts the list at the position `index` reports. */
  lemma {:induction false} RemoveFirstAt<T>(s: seq<T>, x: T)
    requires x in s
    ensures RemoveFirst(s, x) == s[..FirstIndex(s, x)] + s[FirstIndex(s, x) + 1..]
  {
    if s[0] != x {
      var t := s[1..];
      RemoveFirstAt(t, x);
      var j := FirstIndex(t, x);
      assert FirstIndex(s, x) == j + 1;
      calc {
        RemoveFirst(s, x);
        [s[0]] + RemoveFirst(t, x);
        [s[0]] + (t[..j] + t[j + 1..]);
        { assert s[..j + 1] == [s[0]] + t[..j]; assert s[j + 2..] == t[j + 1..]; }
        s[..j + 1] + s[j + 2..];
      }
    }
  }

  /** `remove` takes exactly one copy of `x` out of the list. */
  lemma {:induction false} RemoveFirstCounts<T>(s: seq<T>, x: T)
    requires x in s
    ensures |RemoveFirst(s, x)| == |s| - 1
    ensures multiset(RemoveFirst(s, x)) == multiset(s) - multiset{x}
  {
    if s[0] != x {
      RemoveFirstCounts(s[1..], x);
      assert s == [s[0]] + s[1..];
    } else {
      assert s == [s[0]] + s[1..];
    }
  }

  /** Removing an element that occurs once leaves a list without it. */
  lemma RemoveFirstUnique<T>(s: seq<T>, x: T)
    requires x in s
    requires forall i, j :: 0 <= i < j < |s| ==> s[i] != s[j]
    ensures x !in RemoveFirst(s, x)
  {
    RemoveFirstAt(s, x);
    var i := FirstIndex(s, x);
    var r := RemoveFirst(s, x);
    forall k | 0 <= k < |r| ensures r[k] != x {
      if k < i {
        assert r[k] == s[..i][k];
      } else {
        assert r[k] == s[k + 1] && s[i] == x;
      }
    }
  }
}
