/** String operations of JavaScript that the core relies on, over `seq<char>`. */
module Text {

  /** `s.startsWith(p)` */
  predicate IsPrefix(p: string, s: string) {
    |p| <= |s| && s[..|p|] == p
  }

  /** `s.endsWith(p)` */
  predicate IsSuffix(p: string, s: string) {
    |p| <= |s| && s[|s| - |p|..] == p
  }

  /** `s.includes(t)`, as a scan over the start positions of `s`. */
  predicate Contains(s: string, t: string)
    decreases |s|
  {
    IsPrefix(t, s) || (s != [] && Contains(s[1..], t))
  }

  /** `t` occurs in `s` at offset `i`. */
  predicate OccursAt(s: string, t: string, i: int) {
    0 <= i <= |s| - |t| && s[i..i + |t|] == t
  }

  /** `Contains` agrees with the textbook definition: `t` occurs at some offset of `s`. */
  lemma {:induction false} ContainsAt(s: string, t: string)
    ensures Contains(s, t) <==> exists i :: OccursAt(s, t, i)
    decreases |s|
  {
    if s == [] {
      if IsPrefix(t, s) {
        assert OccursAt(s, t, 0);
      }
    } else {
      ContainsAt(s[1..], t);
      if IsPrefix(t, s) {
        assert OccursAt(s, t, 0);
      } else if Contains(s[1..], t) {
        var i :| OccursAt(s[1..], t, i);
        assert s[1..][i..i + |t|] == s[i + 1..i + 1 + |t|];
        assert OccursAt(s, t, i + 1);
      }
      if exists i :: OccursAt(s, t, i) {
        var i :| OccursAt(s, t, i);
        if i > 0 {
          assert s[1..][i - 1..i - 1 + |t|] == s[i..i + |t|];
          assert OccursAt(s[1..], t, i - 1);
        }
      }
    }
  }

  /** A string holding a character that `s` lacks does not occur in `s`. */
  lemma {:induction false} MissingChar(s: string, t: string, c: char)
    requires c in t && c !in s
    ensures !Contains(s, t)
    decreases |s|
  {
    if s != [] {
      MissingChar(s[1..], t, c);
    }
  }

  /** A string that starts with a pair of characters `s` never has side by side does not
      occur in `s`. */
  lemma {:induction false} MissingPair(s: string, t: string)
    requires |t| >= 2
    requires forall i :: 0 <= i < |s| - 1 ==> !(s[i] == t[0] && s[i + 1] == t[1])
    ensures !Contains(s, t)
    decreases |s|
  {
    if |t| <= |s| {
      assert s[..|t|][0] == s[0] && s[..|t|][1] == s[1];
    }
    if s != [] {
      forall i | 0 <= i < |s[1..]| - 1
        ensures !(s[1..][i] == t[0] && s[1..][i + 1] == t[1])
      {
        assert s[1..][i] == s[i + 1] && s[1..][i + 1] == s[i + 2];
      }
      MissingPair(s[1..], t);
    }
  }

  /** `parts.join(sep)` */
  function Join(sep: string, parts: seq<string>): string
    decreases |parts|
  {
    if parts == [] then ""
    else if |parts| == 1 then parts[0]
    else parts[0] + sep + Join(sep, parts[1..])
  }

  /** `parts.join('')` */
  function Concat(parts: seq<string>): (r: string)
    decreases |parts|
  {
    if parts == [] then "" else Concat(parts[..|parts| - 1]) + parts[|parts| - 1]
  }

  lemma {:induction false} ConcatAppend(a: seq<string>, b: seq<string>)
    ensures Concat(a + b) == Concat(a) + Concat(b)
    decreases |b|
  {
    if b == [] {
      assert a + b == a;
    } else {
      var init, x := b[..|b| - 1], b[|b| - 1];
      assert b == init + [x];
      assert a + b == (a + init) + [x];
      ConcatAppend(a, init);
      ConcatSnoc(a + init, x);
      ConcatSnoc(init, x);
      Regroup(Concat(a), Concat(init), x);
    }
  }

  /** Appending one part appends its text. */
  lemma ConcatSnoc(s: seq<string>, x: string)
    ensures Concat(s + [x]) == Concat(s) + x
  {
    assert (s + [x])[..|s|] == s;
  }

  lemma Regroup(a: string, b: string, c: string)
    ensures a + b + c == a + (b + c)
  {
  }

  /** `s.split(c)` for a one-character separator: the pieces between separators, so that
      a string with `n` separators has `n + 1` pieces. */
  function Split(s: string, c: char): (r: seq<string>)
    ensures |r| >= 1
    decreases |s|
  {
    if s == [] then [""]
    else
      var rest := Split(s[1..], c);
      if s[0] == c then [""] + rest else [[s[0]] + rest[0]] + rest[1..]
  }

  /** Splitting then joining with the same separator gives the string back, and no piece
      holds the separator. */
  lemma {:induction false} SplitJoin(s: string, c: char)
    ensures Join([c], Split(s, c)) == s
    ensures forall i :: 0 <= i < |Split(s, c)| ==> c !in Split(s, c)[i]
    decreases |s|
  {
    SplitPieces(s, c);
    if s != [] {
      var x, t := s[0], s[1..];
      assert s == [x] + t;
      SplitJoin(t, c);
      SplitCons(x, t, c);
      var rest := Split(t, c);
      assert rest == [rest[0]] + rest[1..];
      assert Split(s, c) == SplitStep(x, c, rest);
      if x == c {
        JoinEmptyFirst(c, rest, t);
      } else {
        JoinExtendFirst(x, c, rest[0], rest[1..], t);
      }
    }
  }

  /** Putting an empty part first puts a separator in front of the join. */
  lemma JoinEmptyFirst(c: char, parts: seq<string>, t: string)
    requires parts != [] && Join([c], parts) == t
    ensures Join([c], [""] + parts) == [c] + t
  {
    JoinCons("", parts, [c]);
  }

  /** Putting a character in front of the first part puts it in front of the join. */
  lemma JoinExtendFirst(x: char, c: char, first: string, more: seq<string>, t: string)
    requires Join([c], [first] + more) == t
    ensures Join([c], [[x] + first] + more) == [x] + t
  {
    JoinCons([x] + first, more, [c]);
    JoinCons(first, more, [c]);
    if more != [] {
      assert [x] + first + [c] + Join([c], more) == [x] + (first + [c] + Join([c], more));
    }
  }

  /** No piece of a split holds the separator. */
  lemma {:induction false} SplitPieces(s: string, c: char)
    ensures forall i :: 0 <= i < |Split(s, c)| ==> c !in Split(s, c)[i]
    decreases |s|
  {
    if s != [] {
      var x, t := s[0], s[1..];
      assert s == [x] + t;
      SplitPieces(t, c);
      SplitCons(x, t, c);
    }
  }

  /** One step of `Join`: the first part, then the separator and the rest when there is a rest. */
  lemma JoinCons(p: string, ps: seq<string>, sep: string)
    ensures Join(sep, [p] + ps) == if ps == [] then p else p + sep + Join(sep, ps)
  {
    assert ([p] + ps)[0] == p && ([p] + ps)[1..] == ps;
  }

  /** Splitting is a homomorphism across a separator: the pieces of `a + c + b` are the
      pieces of `a` followed by the pieces of `b`. */
  lemma {:induction false} SplitAcross(a: string, c: char, b: string)
    ensures Split(a + [c] + b, c) == Split(a, c) + Split(b, c)
    decreases |a|
  {
    if a == [] {
      assert a + [c] + b == [c] + b;
      SplitCons(c, b, c);
    } else {
      var t := a[1..];
      assert a == [a[0]] + t;
      assert a + [c] + b == [a[0]] + (t + [c] + b);
      SplitAcross(t, c, b);
      SplitCons(a[0], t + [c] + b, c);
      SplitCons(a[0], t, c);
      SplitStepAppend(a[0], c, Split(t, c), Split(b, c));
    }
  }

  /** One step of `Split`: the first character either ends a piece or joins the first one. */
  function SplitStep(x: char, c: char, pieces: seq<string>): seq<string>
    requires pieces != []
  {
    if x == c then [""] + pieces else [[x] + pieces[0]] + pieces[1..]
  }

  lemma SplitCons(x: char, s: string, c: char)
    ensures Split([x] + s, c) == SplitStep(x, c, Split(s, c))
  {
    assert ([x] + s)[0] == x && ([x] + s)[1..] == s;
  }

  /** A step only touches the first piece. */
  lemma SplitStepAppend(x: char, c: char, p: seq<string>, q: seq<string>)
    requires p != []
    ensures SplitStep(x, c, p + q) == SplitStep(x, c, p) + q
  {
    assert (p + q)[0] == p[0];
    assert (p + q)[1..] == p[1..] + q;
  }

  lemma {:induction false} SplitNone(s: string, c: char)
    requires c !in s
    ensures Split(s, c) == [s]
    decreases |s|
  {
    if s != [] {
      SplitNone(s[1..], c);
      assert s == [s[0]] + s[1..];
    }
  }

  /** Joining pieces that do not hold the separator and splitting again gives the pieces
      back. */
  lemma {:induction false} JoinSplit(parts: seq<string>, c: char)
    requires |parts| >= 1
    requires forall i :: 0 <= i < |parts| ==> c !in parts[i]
    ensures Split(Join([c], parts), c) == parts
    decreases |parts|
  {
    if |parts| == 1 {
      SplitNone(parts[0], c);
    } else {
      JoinSplit(parts[1..], c);
      SplitNone(parts[0], c);
      SplitAcross(parts[0], c, Join([c], parts[1..]));
      assert parts == [parts[0]] + parts[1..];
    }
  }

  /** `s` with `t` inserted at position `k`. */
  function Insert(s: string, k: nat, t: string): (r: string)
    requires k <= |s|
    ensures |r| == |s| + |t|
    ensures r[..k] == s[..k] && r[k..k + |t|] == t && r[k + |t|..] == s[k..]
  {
    s[..k] + t + s[k..]
  }

  /** Inserting at the boundary of a concatenation puts the text between the two halves. */
  lemma InsertBetween(a: string, b: string, t: string)
    ensures Insert(a + b, |a|, t) == a + t + b
  {
    assert (a + b)[..|a|] == a;
    assert (a + b)[|a|..] == b;
  }

  /** The characters `String.prototype.trim` removes (the ASCII and common Unicode blanks). */
  predicate IsSpace(ch: char) {
    ch == ' ' || ch == '\t' || ch == '\n' || ch == '\r' || ch == '\U{000B}' || ch == '\U{000C}'
    || ch == '\U{00A0}' || ch == '\U{2028}' || ch == '\U{2029}' || ch == '\U{FEFF}'
  }

  /** `s.trim() === ''` */
  predicate Blank(s: string) {
    forall i :: 0 <= i < |s| ==> IsSpace(s[i])
  }

  /** `s` without its leading blanks. */
  function TrimStart(s: string): (r: string)
    ensures |r| <= |s| && r == s[|s| - |r|..]
    ensures Blank(s[..|s| - |r|])
    ensures r != [] ==> !IsSpace(r[0])
    decreases |s|
  {
    if s != [] && IsSpace(s[0]) then
      var r := TrimStart(s[1..]);
      assert s[..|s| - |r|] == [s[0]] + s[1..][..|s| - 1 - |r|];
      r
    else s
  }

  /** `s` without its trailing blanks. */
  function TrimEnd(s: string): (r: string)
    ensures |r| <= |s| && r == s[..|r|]
    ensures Blank(s[|r|..])
    ensures r != [] ==> !IsSpace(r[|r| - 1])
    decreases |s|
  {
    if s != [] && IsSpace(s[|s| - 1]) then
      var r := TrimEnd(s[..|s| - 1]);
      assert s[|r|..] == s[..|s| - 1][|r|..] + [s[|s| - 1]];
      r
    else s
  }

  /** `s.trim()`: `s` without leading and trailing blanks; it is empty exactly when `s` is
      blank. */
  function Trim(s: string): (r: string)
    ensures r == [] <==> Blank(s)
    ensures r != [] ==> !IsSpace(r[0]) && !IsSpace(r[|r| - 1])
    ensures exists i, j :: 0 <= i <= j <= |s| && r == s[i..j] && Blank(s[..i]) && Blank(s[j..])
  {
    var t := TrimStart(s);
    var r := TrimEnd(t);
    TrimParts(s, t, r);
    r
  }

  /** Cutting a blank prefix off `s` and then a blank suffix off the rest leaves a slice of
      `s` between a blank prefix and a blank suffix, empty exactly when `s` is blank. */
  lemma TrimParts(s: string, t: string, r: string)
    requires |t| <= |s| && t == s[|s| - |t|..] && Blank(s[..|s| - |t|])
    requires t != [] ==> !IsSpace(t[0])
    requires |r| <= |t| && r == t[..|r|] && Blank(t[|r|..])
    ensures r == [] <==> Blank(s)
    ensures exists i, j :: 0 <= i <= j <= |s| && r == s[i..j] && Blank(s[..i]) && Blank(s[j..])
  {
    var i := |s| - |t|;
    var j := i + |r|;
    SliceOfSlice(s, i, |r|);
    assert s[j..] == t[|r|..];
    assert Blank(s[..i]) && Blank(s[j..]);
    if r == [] {
      BlankConcat(s[..i], t);
      assert s == s[..i] + t;
    } else {
      assert s[i] == r[0];
    }
  }

  /** Taking `n` characters from position `i` in two steps or in one. */
  lemma SliceOfSlice(s: string, i: nat, n: nat)
    requires i + n <= |s|
    ensures s[i..][..n] == s[i..i + n] && s[i..][n..] == s[i + n..]
  {
  }

  /** Blank strings are closed under concatenation. */
  lemma BlankConcat(a: string, b: string)
    requires Blank(a) && Blank(b)
    ensures Blank(a + b)
  {
    forall k | 0 <= k < |a + b|
      ensures IsSpace((a + b)[k])
    {
      if k < |a| { assert (a + b)[k] == a[k]; } else { assert (a + b)[k] == b[k - |a|]; }
    }
  }

  /** Every piece of a blank string is blank. */
  lemma {:induction false} SplitBlank(s: string, c: char)
    requires Blank(s)
    ensures forall i :: 0 <= i < |Split(s, c)| ==> Blank(Split(s, c)[i])
    decreases |s|
  {
    if s != [] {
      SplitBlank(s[1..], c);
      var rest := Split(s[1..], c);
      if s[0] != c {
        var head := [s[0]] + rest[0];
        assert forall i :: 0 <= i < |head| ==> IsSpace(head[i]) by {
          forall i | 0 <= i < |head|
            ensures IsSpace(head[i])
          {
            if i > 0 { assert head[i] == rest[0][i - 1]; }
          }
        }
      }
    }
  }

  /** The decimal digits of `n`, as `String(n)` writes them. */
  function Decimal(n: nat): (r: string)
    decreases n
  {
    var d := ['0' + (n % 10) as char];
    if n < 10 then d else Decimal(n / 10) + d
  }
}
