/** str.strip and String.trim, for a given notion of white space. */
module Texts {
  function LStrip(space: char -> bool, s: string): string {
    if s != "" && space(s[0]) then LStrip(space, s[1..]) else s
  }

  function RStrip(space: char -> bool, s: string): string {
    if s != "" && space(s[|s| - 1]) then RStrip(space, s[..|s| - 1]) else s
  }

  function Strip(space: char -> bool, s: string): string { RStrip(space, LStrip(space, s)) }

  predicate Trimmed(space: char -> bool, s: string) {
    s != "" ==> !space(s[0]) && !space(s[|s| - 1])
  }

  lemma {:induction false} LStripStarts(space: char -> bool, s: string)
    ensures LStrip(space, s) != "" ==> !space(LStrip(space, s)[0])
  {
    if s != "" { LStripStarts(space, s[1..]); }
  }

  lemma {:induction false} LStripShortens(space: char -> bool, s: string)
    ensures |LStrip(space, s)| <= |s|
  {
    if s != "" { LStripShortens(space, s[1..]); }
  }

  lemma {:induction false} RStripEnds(space: char -> bool, s: string)
    ensures var r := RStrip(space, s); r <= s && (r != "" ==> !space(r[|r| - 1]))
  {
    if s != "" { RStripEnds(space, s[..|s| - 1]); }
  }

  lemma StripTrims(space: char -> bool, s: string)
    ensures Trimmed(space, Strip(space, s))
  {
    LStripStarts(space, s);
    RStripEnds(space, LStrip(space, s));
  }

  /** The piece is the stretch a..b of the text. */
  predicate IsStretch(piece: string, text: string, a: int, b: int) {
    0 <= a <= b <= |text| && piece == text[a..b]
  }

  lemma {:induction false} LStripKeeps(space: char -> bool, s: string, p: nat) returns (a: nat)
    requires p < |s| && !space(s[p])
    ensures a <= p && IsStretch(LStrip(space, s), s, a, |s|)
    decreases |s|
  {
    if space(s[0]) {
      assert s[1..][p - 1] == s[p];
      var b := LStripKeeps(space, s[1..], p - 1);
      a := b + 1;
    } else {
      a := 0;
    }
  }

  lemma {:induction false} RStripKeeps(space: char -> bool, s: string, p: nat) returns (b: nat)
    requires p < |s| && !space(s[p])
    ensures p < b && IsStretch(RStrip(space, s), s, 0, b)
    decreases |s|
  {
    if space(s[|s| - 1]) {
      b := RStripKeeps(space, s[..|s| - 1], p);
    } else {
      b := |s|;
    }
  }

  lemma {:induction false} StripKeeps(space: char -> bool, s: string, p: nat) returns (a: nat, b: nat)
    requires p < |s| && !space(s[p])
    ensures a <= p < b && IsStretch(Strip(space, s), s, a, b)
  {
    a := LStripKeeps(space, s, p);
    var end := RStripKeeps(space, LStrip(space, s), p - a);
    b := a + end;
  }

  /** What is stripped away whole is white space, and nothing else is. */
  lemma {:induction false} StripBlank(space: char -> bool, s: string)
    ensures Strip(space, s) == "" <==> forall i | 0 <= i < |s| :: space(s[i])
  {
    if forall i | 0 <= i < |s| :: space(s[i]) {
      LStripBlank(space, s);
    } else {
      var p :| 0 <= p < |s| && !space(s[p]);
      var a, b := StripKeeps(space, s, p);
    }
  }

  lemma {:induction false} LStripBlank(space: char -> bool, s: string)
    requires forall i | 0 <= i < |s| :: space(s[i])
    ensures LStrip(space, s) == ""
  {
    if s != "" { LStripBlank(space, s[1..]); }
  }
}
