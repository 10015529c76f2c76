/** The string operations the service relies on: `String.prototype.split`
    with a one-character separator, `Array.prototype.join`, and
    `String.prototype.includes`. */
module Text {
  import opened Seqs

  /** The parts of `parts` separated by `sep` (`parts.join(sep)`). */
  function Join(parts: seq<string>, sep: string): string {
    if |parts| == 0 then ""
    else if |parts| == 1 then parts[0]
    else parts[0] + sep + Join(parts[1..], sep)
  }

  /** Joining a non-empty list of parts after one more part. */
  lemma JoinCons(first: string, rest: seq<string>, sep: string)
    requires |rest| >= 1
    ensures Join([first] + rest, sep) == first + sep + Join(rest, sep)
  {
    assert ([first] + rest)[1..] == rest;
  }

  /** Prefixing a character to the first part prefixes it to the joined text. */
  lemma JoinExtendFirst(c: char, parts: seq<string>, sep: string)
    requires |parts| >= 1
    ensures Join([[c] + parts[0]] + parts[1..], sep) == [c] + Join(parts, sep)
  {
    if |parts| > 1 {
      JoinCons([c] + parts[0], parts[1..], sep);
      JoinCons(parts[0], parts[1..], sep);
      assert parts == [parts[0]] + parts[1..];
    }
  }

  /** `s.split(sep)` for a one-character separator: the maximal pieces of
      `s` that do not contain `sep`. An empty string gives one empty piece,
      and two adjacent separators give an empty piece between them. */
  function Split(s: string, sep: char): (r: seq<string>)
    ensures |r| == multiset(s)[sep] + 1
    ensures forall i :: 0 <= i < |r| ==> sep !in r[i]
    ensures Join(r, [sep]) == s
  {
    if |s| == 0 then [""]
    else
      var rest := Split(s[1..], sep);
      assert s == [s[0]] + s[1..];
      assert multiset(s) == multiset{s[0]} + multiset(s[1..]);
      if s[0] == sep then
        JoinCons("", rest, [sep]);
        [""] + rest
      else
        JoinExtendFirst(s[0], rest, [sep]);
        [[s[0]] + rest[0]] + rest[1..]
  }

  /** A string with no separator in it is a single piece. */
  lemma {:induction false} SplitWithoutSeparator(t: string, sep: char)
    requires sep !in t
    ensures Split(t, sep) == [t]
  {
    if |t| > 0 {
      SplitWithoutSeparator(t[1..], sep);
      assert [t[0]] + t[1..] == t;
    }
  }

  /** Splitting a piece followed by a separator peels that piece off. */
  lemma {:induction false} SplitAfterPiece(t: string, sep: char, w: string)
    requires sep !in t
    ensures Split(t + [sep] + w, sep) == [t] + Split(w, sep)
  {
    var s := t + [sep] + w;
    if |t| > 0 {
      assert s[1..] == t[1..] + [sep] + w;
      SplitAfterPiece(t[1..], sep, w);
      var rest := Split(s[1..], sep);
      assert rest == [t[1..]] + Split(w, sep);
      assert rest[0] == t[1..] && rest[1..] == Split(w, sep);
      assert s[0] == t[0] && s[0] != sep;
      assert Split(s, sep) == [[s[0]] + rest[0]] + rest[1..];
      assert [t[0]] + t[1..] == t;
    } else {
      assert s[0] == sep;
      assert s[1..] == w;
    }
  }

  /** Split inverts Join: joining separator-free pieces and splitting the
      result gives the pieces back. */
  lemma {:induction false} SplitJoin(parts: seq<string>, sep: char)
    requires |parts| >= 1
    requires forall i :: 0 <= i < |parts| ==> sep !in parts[i]
    ensures Split(Join(parts, [sep]), sep) == parts
  {
    if |parts| == 1 {
      SplitWithoutSeparator(parts[0], sep);
    } else {
      SplitJoin(parts[1..], sep);
      SplitAfterPiece(parts[0], sep, Join(parts[1..], [sep]));
      assert parts == [parts[0]] + parts[1..];
    }
  }

  /** `sub` occurs in `s` starting at position `i`. */
  predicate OccursAt(s: string, sub: string, i: int) {
    0 <= i && i + |sub| <= |s| && s[i..i + |sub|] == sub
  }

  /** `sub` occurs somewhere in `s`. */
  ghost predicate Occurs(s: string, sub: string) {
    exists i :: OccursAt(s, sub, i)
  }

  /** `s.includes(sub)`: a left-to-right search for `sub`. */
  function Includes(s: string, sub: string): (b: bool)
    ensures b <==> Occurs(s, sub)
  {
    if |sub| > |s| then false
    else if s[..|sub|] == sub then
      assert OccursAt(s, sub, 0);
      true
    else
      var b := Includes(s[1..], sub);
      assert forall i :: OccursAt(s[1..], sub, i) <==> OccursAt(s, sub, i + 1) by {
        forall i ensures OccursAt(s[1..], sub, i) <==> OccursAt(s, sub, i + 1) {
          if 0 <= i && i + |sub| <= |s[1..]| {
            assert s[1..][i..i + |sub|] == s[i + 1..i + 1 + |sub|];
          }
        }
      }
      assert Occurs(s, sub) ==> Occurs(s[1..], sub) by {
        if Occurs(s, sub) {
          var i :| OccursAt(s, sub, i);
          assert i != 0;
          assert OccursAt(s[1..], sub, i - 1);
        }
      }
      b
  }

  /** Text placed around `sub` leaves `sub` in the result. */
  lemma OccursInside(pre: string, sub: string, post: string)
    ensures OccursAt(pre + sub + post, sub, |pre|)
  {
    assert (pre + sub + post)[|pre|..|pre| + |sub|] == sub;
  }

  /** Text placed before `sub` leaves `sub` at the end of the result. */
  lemma OccursAtEnd(pre: string, sub: string)
    ensures OccursAt(pre + sub, sub, |pre|)
  {
    assert (pre + sub)[|pre|..|pre| + |sub|] == sub;
  }

  /** Appending text keeps an occurrence where it was. */
  lemma OccursAtExtend(s: string, t: string, sub: string, i: int)
    requires OccursAt(s, sub, i)
    ensures OccursAt(s + t, sub, i)
  {
    assert (s + t)[i..i + |sub|] == s[i..i + |sub|];
  }
}
