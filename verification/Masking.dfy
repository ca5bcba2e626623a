/**
 Removing known secrets from a message: `sanitize_message` of src/infrastructure/security/masking.py.
 The regular expressions of `mask_text` are any function from text to text.
 */
module Masking {

  const MASK := "***"
  const SHORTEST_SECRET := 4

  predicate OccursAt(s: string, text: string, i: nat) {
    i + |s| <= |text| && text[i..i + |s|] == s
  }

  ghost predicate Occurs(s: string, text: string) {
    exists i: nat :: OccursAt(s, text, i)
  }

  /** Python's text.replace(s, MASK): from the left, without overlap. */
  function Replace(text: string, s: string): string
    requires s != ""
  {
    if |text| < |s| then text
    else if OccursAt(s, text, 0) then MASK + Replace(text[|s|..], s)
    else [text[0]] + Replace(text[1..], s)
  }

  /** One secret removed, unless it is too short. */
  function Removed(text: string, s: string): string {
    if |s| >= SHORTEST_SECRET then Replace(text, s) else text
  }

  function Sanitized(masked: string, secrets: seq<string>): string {
    if secrets == [] then masked
    else Removed(Sanitized(masked, secrets[..|secrets| - 1]), secrets[|secrets| - 1])
  }

  method SanitizeMessage(maskText: string -> string, text: string, secrets: seq<string>) returns (out: string)
    ensures out == Sanitized(maskText(text), secrets)
    ensures forall s <- secrets | Erasable(s) :: !Occurs(s, out)
  {
    out := maskText(text);
    for i := 0 to |secrets|
      invariant out == Sanitized(maskText(text), secrets[..i])
    {
      assert secrets[..i + 1][..i] == secrets[..i];
      if secrets[i] != "" && |secrets[i]| >= SHORTEST_SECRET {
        out := Replace(out, secrets[i]);
      }
    }
    assert secrets[..|secrets|] == secrets;
    forall s <- secrets | Erasable(s) ensures !Occurs(s, out) {
      SecretIsGone(maskText(text), secrets, s);
    }
  }

  // ---- What replacing does ---------------------------------------------------------------

  /** The text between the occurrences that are replaced. */
  function Pieces(text: string, s: string): (pieces: seq<string>)
    requires s != ""
    ensures pieces != []
  {
    if |text| < |s| then [text]
    else if OccursAt(s, text, 0) then [""] + Pieces(text[|s|..], s)
    else
      var rest := Pieces(text[1..], s);
      [[text[0]] + rest[0]] + rest[1..]
  }

  function Join(pieces: seq<string>, separator: string): string
    requires pieces != []
  {
    if |pieces| == 1 then pieces[0] else pieces[0] + separator + Join(pieces[1..], separator)
  }

  /** Everything but the secret stays: the message is cut at secrets, and joined again with the mask. */
  lemma {:induction false} ReplaceIsJoinedPieces(text: string, s: string)
    requires s != ""
    ensures text == Join(Pieces(text, s), s)
    ensures Replace(text, s) == Join(Pieces(text, s), MASK)
    decreases |text|
  {
    if |text| < |s| {
      NoRoom(text, s);
    } else if OccursAt(s, text, 0) {
      hide Replace, Pieces, Join;
      ReplaceIsJoinedPieces(text[|s|..], s);
      CutAtFront(text, s);
    } else {
      hide Replace, Pieces, Join;
      ReplaceIsJoinedPieces(text[1..], s);
      NextLetter(text, s);
    }
  }

  lemma NoRoom(text: string, s: string)
    requires |text| < |s|
    ensures Pieces(text, s) == [text] && Replace(text, s) == text && Join([text], s) == Join([text], MASK) == text
  {
  }

  lemma CutAtFront(text: string, s: string)
    requires s != "" && OccursAt(s, text, 0)
    requires text[|s|..] == Join(Pieces(text[|s|..], s), s)
    requires Replace(text[|s|..], s) == Join(Pieces(text[|s|..], s), MASK)
    ensures text == Join(Pieces(text, s), s) && Replace(text, s) == Join(Pieces(text, s), MASK)
  {
    var rest := Pieces(text[|s|..], s);
    JoinAfterCut(rest, s);
    JoinAfterCut(rest, MASK);
    assert Pieces(text, s) == [""] + rest;
    assert text == s + text[|s|..];
  }

  lemma JoinAfterCut(rest: seq<string>, separator: string)
    requires rest != []
    ensures Join([""] + rest, separator) == separator + Join(rest, separator)
  {
    assert ([""] + rest)[1..] == rest;
    assert "" + separator == separator;
  }

  lemma NextLetter(text: string, s: string)
    requires s != "" && |text| >= |s| && !OccursAt(s, text, 0)
    requires text[1..] == Join(Pieces(text[1..], s), s)
    requires Replace(text[1..], s) == Join(Pieces(text[1..], s), MASK)
    ensures text == Join(Pieces(text, s), s) && Replace(text, s) == Join(Pieces(text, s), MASK)
  {
    var rest := Pieces(text[1..], s);
    assert Pieces(text, s) == [[text[0]] + rest[0]] + rest[1..];
    assert Replace(text, s) == [text[0]] + Replace(text[1..], s);
    hide Replace, Pieces, Join;
    JoinPrepend(text[0], rest, s);
    JoinPrepend(text[0], rest, MASK);
    assert text == [text[0]] + text[1..];
  }

  /** And it is cut at every one: no secret is left in a piece. */
  lemma {:induction false} NoPieceHoldsTheSecret(text: string, s: string)
    requires s != ""
    ensures forall piece <- Pieces(text, s) :: !Occurs(s, piece)
    decreases |text|
  {
    if |text| < |s| {
      assert !Occurs(s, text);
    } else if OccursAt(s, text, 0) {
      NoPieceHoldsTheSecret(text[|s|..], s);
      assert !Occurs(s, "");
    } else {
      NoPieceHoldsTheSecret(text[1..], s);
      ReplaceIsJoinedPieces(text[1..], s);
      var rest := Pieces(text[1..], s);
      assert rest[0] <= Join(rest, s);
      var first := [text[0]] + rest[0];
      assert first == text[..|first|];
      SameLetters(s, first, 0);
      SameLetters(s, text, 0);
      InFront(s, [text[0]], rest[0]);
    }
  }

  /** And from the left: the first cut is at the first occurrence, and the rest is cut like a text of its own. */
  lemma {:induction false} CutFromTheLeft(text: string, s: string)
    requires s != ""
    ensures LeftmostCut(text, s, Pieces(text, s))
    decreases |text|
  {
    if |text| < |s| {
      assert !Occurs(s, text);
    } else if OccursAt(s, text, 0) {
      assert text[..0] == "" && text[0 + |s|..] == text[|s|..];
    } else {
      CutFromTheLeft(text[1..], s);
      var rest := Pieces(text[1..], s);
      assert Pieces(text, s) == [[text[0]] + rest[0]] + rest[1..];
      hide Pieces, OccursAt;
      CutOneFurther(text, s, rest);
    }
  }

  /** One piece, the text itself, if the secret does not occur; else up to its first occurrence, and the rest alike. */
  ghost predicate LeftmostCut(text: string, s: string, pieces: seq<string>)
    requires s != ""
  {
    && pieces != []
    && if |pieces| == 1 then pieces[0] == text && !Occurs(s, text)
       else
         var n := |pieces[0]|;
         && OccursAt(s, text, n) && pieces[0] == text[..n] && (forall i: nat | i < n :: !OccursAt(s, text, i))
         && pieces[1..] == Pieces(text[n + |s|..], s)
  }

  lemma CutOneFurther(text: string, s: string, rest: seq<string>)
    requires s != "" && |text| >= |s| && !OccursAt(s, text, 0) && LeftmostCut(text[1..], s, rest)
    ensures LeftmostCut(text, s, [[text[0]] + rest[0]] + rest[1..])
  {
    OneFurther(text, s);
    hide Pieces, Occurs;
    assert text == [text[0]] + text[1..];
    if |rest| > 1 {
      var n := |rest[0]|;
      assert OccursAt(s, text, n + 1) && text[..n + 1] == [text[0]] + text[1..][..n];
      assert text[n + 1 + |s|..] == text[1..][n + |s|..];
      forall i: nat | i < n + 1 ensures !OccursAt(s, text, i) {
        assert i > 0 ==> !OccursAt(s, text[1..], i - 1);
      }
    }
  }

  lemma OneFurther(text: string, s: string)
    requires s != "" && |text| >= |s| && !OccursAt(s, text, 0)
    ensures forall i: nat | i > 0 :: OccursAt(s, text, i) <==> OccursAt(s, text[1..], i - 1)
    ensures Occurs(s, text) <==> Occurs(s, text[1..])
  {
    forall i: nat | i > 0 ensures OccursAt(s, text, i) <==> OccursAt(s, text[1..], i - 1) {
      SameLetters(s, text, i);
      SameLetters(s, text[1..], i - 1);
    }
    if i: nat :| OccursAt(s, text[1..], i) {
      assert OccursAt(s, text, i + 1);
    }
    if i: nat :| OccursAt(s, text, i) {
      assert OccursAt(s, text[1..], i - 1);
    }
  }

  lemma JoinPrepend(c: char, pieces: seq<string>, separator: string)
    requires pieces != []
    ensures Join([[c] + pieces[0]] + pieces[1..], separator) == [c] + Join(pieces, separator)
  {
    var longer := [[c] + pieces[0]] + pieces[1..];
    assert longer[0] == [c] + pieces[0] && longer[1..] == pieces[1..];
    if |pieces| > 1 {
      var tail := Join(pieces[1..], separator);
      assert [c] + pieces[0] + separator + tail == [c] + (pieces[0] + separator + tail);
    }
  }

  lemma {:induction false} NothingToReplace(text: string, s: string)
    requires s != "" && !Occurs(s, text)
    ensures Replace(text, s) == text
    decreases |text|
  {
    if |text| >= |s| {
      assert !OccursAt(s, text, 0);
      OccursInTail(s, text, 1);
      NothingToReplace(text[1..], s);
    }
  }

  lemma SameLetters(s: string, text: string, i: nat)
    ensures OccursAt(s, text, i) <==> i + |s| <= |text| && forall k | 0 <= k < |s| :: text[i + k] == s[k]
  {
  }

  lemma OccursInTail(s: string, text: string, n: nat)
    requires n <= |text|
    ensures Occurs(s, text[n..]) ==> Occurs(s, text)
  {
    if Occurs(s, text[n..]) {
      var i: nat :| OccursAt(s, text[n..], i);
      assert text[n..][i..i + |s|] == text[n + i..n + i + |s|];
      assert OccursAt(s, text, n + i);
    }
  }

  /** A message in which no secret occurs comes out as the pattern masking left it. */
  lemma {:induction false} CleanMessageUntouched(masked: string, secrets: seq<string>)
    requires forall s <- secrets | |s| >= SHORTEST_SECRET :: !Occurs(s, masked)
    ensures Sanitized(masked, secrets) == masked
    decreases |secrets|
  {
    if secrets != [] {
      CleanMessageUntouched(masked, secrets[..|secrets| - 1]);
      var s := secrets[|secrets| - 1];
      assert s in secrets;
      if |s| >= SHORTEST_SECRET {
        NothingToReplace(masked, s);
      }
    }
  }

  // ---- Which secrets are gone --------------------------------------------------------------

  /** No part of the text can be, or run into, a mask. */
  ghost predicate ClearOfMask(s: string) {
    (s == "" || s[|s| - 1] != '*') && !Occurs(MASK, s)
  }

  /** The secrets the method can promise to remove: long enough, and no star where a mask could supply it. */
  ghost predicate Erasable(s: string) {
    |s| >= SHORTEST_SECRET && s[0] != '*' && ClearOfMask(s)
  }

  lemma StarFreeIsErasable(s: string)
    requires |s| >= SHORTEST_SECRET && '*' !in s
    ensures Erasable(s)
  {
    forall i: nat ensures !OccursAt(MASK, s, i) {
      SameLetters(MASK, s, i);
      assert MASK[0] == '*';
    }
  }

  /** What stands at the front of the replaced text and is clear of the mask stood there before. */
  lemma {:induction false} PrefixSurvives(p: string, text: string, s: string)
    requires s != "" && ClearOfMask(p) && OccursAt(p, Replace(text, s), 0)
    ensures OccursAt(p, text, 0)
    decreases |text|
  {
    if |text| >= |s| && p != "" {
      var out := Replace(text, s);
      assert out[..|p|] == p;
      if OccursAt(s, text, 0) {
        if |p| >= 3 {
          SameLetters(MASK, p, 0);
        }
        assert false;
      } else {
        var tail := p[1..];
        OccursInTail(MASK, p, 1);
        assert out[1..] == Replace(text[1..], s);
        assert Replace(text[1..], s)[..|tail|] == tail;
        PrefixSurvives(tail, text[1..], s);
        assert p == [text[0]] + tail;
      }
    }
  }

  /** A replacement brings no erasable secret into the text. */
  lemma {:induction false} NothingComesBack(t: string, text: string, s: string)
    requires s != "" && Erasable(t) && !Occurs(t, text)
    ensures !Occurs(t, Replace(text, s))
    decreases |text|
  {
    if |text| >= |s| {
      assert !OccursAt(t, text, 0);
      var n := if OccursAt(s, text, 0) then |s| else 1;
      OccursInTail(t, text, n);
      NothingComesBack(t, text[n..], s);
      OneStep(t, text, s);
    }
  }

  lemma OneStep(t: string, text: string, s: string)
    requires s != "" && Erasable(t) && |text| >= |s|
    requires OccursAt(t, text, 0) ==> OccursAt(s, text, 0)
    requires !Occurs(t, Replace(text[if OccursAt(s, text, 0) then |s| else 1..], s))
    ensures !Occurs(t, Replace(text, s))
  {
    if OccursAt(s, text, 0) {
      forall i | 0 <= i < 3 ensures !OccursAt(t, MASK + Replace(text[|s|..], s), i) {
        SameLetters(t, MASK + Replace(text[|s|..], s), i);
      }
      InFront(t, MASK, Replace(text[|s|..], s));
    } else {
      if OccursAt(t, Replace(text, s), 0) {
        PrefixSurvives(t, text, s);
        assert false;
      }
      InFront(t, [text[0]], Replace(text[1..], s));
    }
  }

  lemma InFront(t: string, front: string, rest: string)
    requires !Occurs(t, rest)
    requires forall i | 0 <= i < |front| :: !OccursAt(t, front + rest, i)
    ensures !Occurs(t, front + rest)
  {
    forall i: nat ensures !OccursAt(t, front + rest, i) {
      if i >= |front| {
        assert !OccursAt(t, rest, i - |front|);
        SameLetters(t, rest, i - |front|);
        SameLetters(t, front + rest, i);
      }
    }
  }

  /** An erasable secret does not survive its own replacement. */
  lemma {:induction false} ReplaceErases(text: string, s: string)
    requires Erasable(s)
    ensures !Occurs(s, Replace(text, s))
    decreases |text|
  {
    if |text| >= |s| {
      ReplaceErases(text[if OccursAt(s, text, 0) then |s| else 1..], s);
      OneStep(s, text, s);
    }
  }

  /** An erasable secret is nowhere in the message, across masks or after later replacements. */
  lemma {:induction false} SecretIsGone(masked: string, secrets: seq<string>, s: string)
    requires s in secrets && Erasable(s)
    ensures !Occurs(s, Sanitized(masked, secrets))
    decreases |secrets|
  {
    var rest := Sanitized(masked, secrets[..|secrets| - 1]);
    var last := secrets[|secrets| - 1];
    if last == s {
      ReplaceErases(rest, s);
    } else {
      SecretIsGone(masked, secrets[..|secrets| - 1], s);
      if |last| >= SHORTEST_SECRET {
        NothingComesBack(s, rest, last);
      }
    }
  }

  // ---- And which are not -------------------------------------------------------------------

  /** The exact extent of the promise: a secret is removed from every message if and only if it is erasable. */
  lemma RemovedIffErasable(s: string)
    ensures (forall masked, secrets | s in secrets :: !Occurs(s, Sanitized(masked, secrets))) <==> Erasable(s)
  {
    if Erasable(s) {
      forall masked, secrets | s in secrets ensures !Occurs(s, Sanitized(masked, secrets)) {
        SecretIsGone(masked, secrets, s);
      }
    } else {
      var masked := Survives(s);
      assert Sanitized(masked, [s]) == Removed(masked, s);
      assert s in [s];
      assert Occurs(s, Sanitized(masked, [s]));
    }
  }

  /** In letters: four or more, no star first or last, and nowhere three stars in a row. */
  lemma ErasableTold(s: string)
    ensures (forall masked, secrets | s in secrets :: !Occurs(s, Sanitized(masked, secrets))) <==>
            |s| >= 4 && s[0] != '*' && s[|s| - 1] != '*'
            && forall i, j | 0 <= i && j == i + 3 <= |s| :: s[i..j] != "***"
  {
    RemovedIffErasable(s);
    if |s| >= 4 && s[0] != '*' && s[|s| - 1] != '*' {
      if i, j :| 0 <= i && j == i + 3 <= |s| && s[i..j] == "***" {
        assert OccursAt(MASK, s, i);
      } else {
        assert !Occurs(MASK, s);
      }
    }
  }

  /** What stands for a secret, and how short one stays: three stars, and up to three letters. */
  lemma MaskTold(masked: string, s: string)
    ensures 0 < |s| < 4 ==> Sanitized(masked, [s]) == masked
    ensures |s| >= 4 ==> Sanitized(masked, [s]) == Replace(masked, s) && Replace(s, s) == "***"
  {
    assert Sanitized(masked, [s]) == Removed(masked, s);
    if |s| >= 4 {
      assert OccursAt(s, s, 0) && s[|s|..] == "";
      assert Replace("", s) == "";
    }
  }

  /** Secrets are removed one after the other, in the order given. */
  lemma {:induction false} FirstSecretFirst(masked: string, s: string, rest: seq<string>)
    ensures Sanitized(masked, [s] + rest) == Sanitized(Removed(masked, s), rest)
    decreases |rest|
  {
    hide Removed;
    if rest == [] {
      assert [s] + rest == [s];
    } else {
      assert ([s] + rest)[..|rest|] == [s] + rest[..|rest| - 1];
      FirstSecretFirst(masked, s, rest[..|rest| - 1]);
    }
  }

  /** A message that still shows a secret which is not erasable. */
  lemma Survives(s: string) returns (masked: string)
    requires !Erasable(s)
    ensures Occurs(s, Removed(masked, s))
  {
    if |s| < SHORTEST_SECRET {
      masked := s;
      assert OccursAt(s, s, 0);
    } else if s[0] == '*' {
      masked := StarAtTheStart(s);
    } else if s[|s| - 1] == '*' {
      masked := StarAtTheEnd(s);
    } else {
      masked := MaskInside(s);
    }
  }

  lemma StarAtTheStart(s: string) returns (masked: string)
    requires |s| >= SHORTEST_SECRET && s[0] == '*'
    ensures Occurs(s, Replace(masked, s))
  {
    masked := "" + s + s[1..];
    FirstReplaced("", s, s[1..]);
    SameLetters(s, "" + MASK + s[1..], 2);
  }

  lemma StarAtTheEnd(s: string) returns (masked: string)
    requires |s| >= SHORTEST_SECRET
    requires s[0] != '*' && s[|s| - 1] == '*'
    ensures Occurs(s, Replace(masked, s))
  {
    var front := s[..|s| - 1];
    masked := front + s + "";
    forall j | 0 <= j < |front| ensures !OccursAt(s, masked, j) {
      SameLetters(s, masked, j);
      assert masked[j + 0] == s[j] == masked[j + (|s| - 1)];
    }
    FirstReplaced(front, s, "");
    SameLetters(s, front + MASK + "", 0);
  }

  lemma MaskInside(s: string) returns (masked: string)
    requires |s| >= SHORTEST_SECRET && Occurs(MASK, s)
    requires s[0] != '*' && s[|s| - 1] != '*'
    ensures Occurs(s, Replace(masked, s))
  {
    var i := FirstOccurrence(MASK, s);
    var a, b := s[..i], s[i + 3..];
    assert s == a + MASK + b;
    masked := a + s + b;
    forall j | 0 <= j < |a| ensures !OccursAt(s, masked, j) {
      assert !OccursAt(MASK, s, j);
      NoEarlierMatch(s, a, b, j);
    }
    FirstReplaced(a, s, b);
    SameLetters(s, a + MASK + b, 0);
  }

  lemma NoEarlierMatch(s: string, a: string, b: string, j: nat)
    requires s == a + MASK + b && j < |a| && !OccursAt(MASK, s, j)
    ensures !OccursAt(s, a + s + b, j)
  {
    var text := a + s + b;
    if OccursAt(s, text, j) {
      SameLetters(s, text, j);
      forall k | 0 <= k < 3 ensures s[j + k] == MASK[k] {
        assert text[j + (|a| + k)] == s[|a| + k];
        assert text[|a| + (j + k)] == s[j + k];
      }
      SameLetters(MASK, s, j);
      assert false;
    }
  }

  lemma FirstOccurrence(p: string, s: string) returns (i: nat)
    requires Occurs(p, s)
    ensures OccursAt(p, s, i)
    ensures forall j: nat | j < i :: !OccursAt(p, s, j)
  {
    var k: nat :| OccursAt(p, s, k);
    i := 0;
    while !OccursAt(p, s, i)
      decreases k - i
      invariant i <= k
      invariant forall j: nat | j < i :: !OccursAt(p, s, j)
    {
      i := i + 1;
    }
  }

  /** If s first occurs right behind a, and b is too short to hold another, that one is replaced. */
  lemma {:induction false} FirstReplaced(a: string, s: string, b: string)
    requires s != "" && |b| < |s|
    requires forall j | 0 <= j < |a| :: !OccursAt(s, a + s + b, j)
    ensures Replace(a + s + b, s) == a + MASK + b
    decreases |a|
  {
    var text := a + s + b;
    if a == "" {
      assert text[|s|..] == b;
      assert OccursAt(s, text, 0);
    } else {
      assert !OccursAt(s, text, 0);
      assert text[1..] == a[1..] + s + b;
      forall j | 0 <= j < |a[1..]| ensures !OccursAt(s, a[1..] + s + b, j) {
        assert !OccursAt(s, text, j + 1);
        SameLetters(s, text, j + 1);
        SameLetters(s, text[1..], j);
      }
      FirstReplaced(a[1..], s, b);
      assert [a[0]] + (a[1..] + MASK + b) == a + MASK + b;
    }
  }
}
