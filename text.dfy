/**
 * String operations the view controller relies on: substring containment
 * (Swift's `String.contains` with a string argument) and joining alert lines
 * with a newline separator (`[String].joined(separator: "\n")`), together with
 * the splitting that recovers the lines from the joined text.
 */
module Text {

  /** `sub` occurs in `s` starting at index `i`. */
  ghost predicate OccursAt(s: string, sub: string, i: int)
  {
    0 <= i && i + |sub| <= |s| && s[i..i + |sub|] == sub
  }

  /** `s` contains `sub` as a contiguous substring. */
  predicate Contains(s: string, sub: string)
    ensures Contains(s, sub) ==> |sub| <= |s|
    decreases |s|
  {
    sub <= s || (|s| > 0 && Contains(s[1..], sub))
  }

  /** Contains agrees with the index-based definition of a substring, in both directions. */
  lemma {:induction false} ContainsIff(s: string, sub: string)
    ensures Contains(s, sub) <==> exists i :: OccursAt(s, sub, i)
    decreases |s|
  {
    if sub <= s {
      assert OccursAt(s, sub, 0);
    } else if |s| == 0 {
      assert |sub| > 0;
      forall i ensures !OccursAt(s, sub, i) {
      }
    } else {
      ContainsIff(s[1..], sub);
      if Contains(s[1..], sub) {
        var j :| OccursAt(s[1..], sub, j);
        assert s[1..][j..j + |sub|] == s[j + 1..j + 1 + |sub|];
        assert OccursAt(s, sub, j + 1);
      } else {
        assert !OccursAt(s, sub, 0);
        forall i | 0 < i ensures !OccursAt(s, sub, i) {
          if i + |sub| <= |s| {
            assert !OccursAt(s[1..], sub, i - 1);
            assert s[1..][i - 1..i - 1 + |sub|] == s[i..i + |sub|];
          }
        }
      }
    }
  }

  /** A string in which the first two characters of `sub` never stand side by side does not contain `sub`. */
  lemma {:induction false} NoLeadingPair(s: string, sub: string)
    requires |sub| >= 2
    requires forall i :: 0 <= i < |s| - 1 ==> s[i] != sub[0] || s[i + 1] != sub[1]
    ensures !Contains(s, sub)
    decreases |s|
  {
    if |s| > 0 {
      if |s| >= 2 {
        assert s[0] != sub[0] || s[1] != sub[1];
      }
      assert !(sub <= s);
      var rest := s[1..];
      forall i | 0 <= i < |rest| - 1 ensures rest[i] != sub[0] || rest[i + 1] != sub[1] {
        assert rest[i] == s[i + 1] && rest[i + 1] == s[i + 2];
      }
      NoLeadingPair(rest, sub);
    }
  }

  /** A witnessed occurrence makes Contains hold. */
  lemma ContainsAt(s: string, sub: string, i: int)
    requires OccursAt(s, sub, i)
    ensures Contains(s, sub)
  {
    ContainsIff(s, sub);
  }

  /** The lines joined with a single `'\n'` between neighbours; the empty list joins to `""`. */
  function JoinLines(lines: seq<string>): (r: string)
    ensures |lines| > 0 ==> lines[0] <= r
    ensures |lines| > 1 ==> |lines[0]| < |r| && r[|lines[0]|] == '\n'
  {
    if |lines| == 0 then ""
    else if |lines| == 1 then lines[0]
    else lines[0] + "\n" + JoinLines(lines[1..])
  }

  /** The text cut at every `'\n'`: one more piece than there are newlines, none holding a newline. */
  function SplitLines(s: string): (r: seq<string>)
    ensures |r| >= 1
    ensures forall k :: 0 <= k < |r| ==> '\n' !in r[k]
  {
    if |s| == 0 then [""]
    else if s[0] == '\n' then [""] + SplitLines(s[1..])
    else
      var rest := SplitLines(s[1..]);
      [[s[0]] + rest[0]] + rest[1..]
  }

  lemma {:induction false} SplitSingle(a: string)
    requires '\n' !in a
    ensures SplitLines(a) == [a]
  {
    if |a| > 0 {
      SplitSingle(a[1..]);
      assert [a[0]] + a[1..] == a;
    }
  }

  lemma {:induction false} SplitFirstLine(a: string, t: string)
    requires '\n' !in a
    ensures SplitLines(a + "\n" + t) == [a] + SplitLines(t)
  {
    var s := a + "\n" + t;
    if |a| == 0 {
      assert s[0] == '\n' && s[1..] == t;
    } else {
      assert s[0] == a[0];
      assert s[1..] == a[1..] + "\n" + t;
      SplitFirstLine(a[1..], t);
      assert [a[0]] + a[1..] == a;
    }
  }

  /** Splitting the joined text gives back the lines, provided none of them holds a newline. */
  lemma {:induction false} SplitJoin(lines: seq<string>)
    requires |lines| >= 1
    requires forall k :: 0 <= k < |lines| ==> '\n' !in lines[k]
    ensures SplitLines(JoinLines(lines)) == lines
  {
    if |lines| == 1 {
      SplitSingle(lines[0]);
    } else {
      SplitFirstLine(lines[0], JoinLines(lines[1..]));
      SplitJoin(lines[1..]);
      assert [lines[0]] + lines[1..] == lines;
    }
  }
}
