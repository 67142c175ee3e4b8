/** The text filter `speak` applies before it embeds an answer in the
    double-quoted string of a speech-synthesis script. */
module Speech {
  import opened Text

  /** `text.replace('"', '').replace("'", "").replace("\n", " ").replace("**", "")`. */
  function Sanitise(text: string): string {
    ReplaceAll(ReplaceAll(ReplaceAll(ReplaceAll(text, "\"", ""), "'", ""), "\n", " "), "**", "")
  }

  /** No two neighbouring characters are both `*`. */
  predicate NoDoubleStar(r: string) {
    forall i :: 0 <= i < |r| - 1 ==> !(r[i] == '*' && r[i + 1] == '*')
  }

  /** Removing "**" keeps the first character of a text that does not start with `*`. */
  lemma StarRemovalKeepsHead(s: string)
    requires |s| > 0 && s[0] != '*'
    ensures |ReplaceAll(s, "**", "")| > 0 && ReplaceAll(s, "**", "")[0] == s[0]
  {
  }

  /** Removing every "**" from left to right leaves no "**" behind: each run
      of stars shrinks to at most one. */
  lemma {:induction false} StarRemovalLeavesNoPair(s: string)
    ensures NoDoubleStar(ReplaceAll(s, "**", ""))
    decreases |s|
  {
    if |s| < 2 {
    } else if s[..2] == "**" {
      StarRemovalLeavesNoPair(s[2..]);
    } else {
      StarRemovalLeavesNoPair(s[1..]);
      var tail := ReplaceAll(s[1..], "**", "");
      if s[0] == '*' {
        assert s[1] != '*';
        StarRemovalKeepsHead(s[1..]);
      }
      assert ReplaceAll(s, "**", "") == [s[0]] + tail;
    }
  }

  /** A text with no neighbouring stars does not contain "**". */
  lemma NoDoubleStarNoPair(r: string)
    requires NoDoubleStar(r)
    ensures !Contains(r, "**")
  {
    ContainsIff(r, "**");
    forall n | 0 <= n && n + 2 <= |r| ensures !OccursAt(r, "**", n) {
      assert r[n..n + 2][0] == r[n] && r[n..n + 2][1] == r[n + 1];
    }
  }

  /** Removing "**" deletes stars only: every other character survives, in order. */
  lemma {:induction false} StarRemovalDropsOnlyStars(s: string)
    ensures Drop(ReplaceAll(s, "**", ""), '*') == Drop(s, '*')
    decreases |s|
  {
    if |s| < 2 {
    } else if s[..2] == "**" {
      StarRemovalDropsOnlyStars(s[2..]);
      assert s[0] == '*' && s[1] == '*';
      assert s[1..][1..] == s[2..];
      assert Drop(s, '*') == Drop(s[1..], '*') == Drop(s[2..], '*');
      var tail := ReplaceAll(s[2..], "**", "");
      assert ReplaceAll(s, "**", "") == "" + tail == tail;
    } else {
      StarRemovalDropsOnlyStars(s[1..]);
      var tail := ReplaceAll(s[1..], "**", "");
      assert ([s[0]] + tail)[1..] == tail;
    }
  }

  /** The sanitised text contains no double quote, no single quote, no
      newline and no "**". */
  lemma SanitiseIsSafe(text: string)
    ensures '"' !in Sanitise(text) && '\'' !in Sanitise(text) && '\n' !in Sanitise(text)
    ensures !Contains(Sanitise(text), "**")
  {
    var a := ReplaceAll(text, "\"", "");
    var b := ReplaceAll(a, "'", "");
    var c := ReplaceAll(b, "\n", " ");
    ReplaceCharByNothing(text, '"');
    ReplaceCharByNothing(a, '\'');
    ReplaceCharByChar(b, '\n', ' ');
    ReplaceKeepsAbsent(c, "**", "", '"');
    ReplaceKeepsAbsent(c, "**", "", '\'');
    ReplaceKeepsAbsent(c, "**", "", '\n');
    StarRemovalLeavesNoPair(c);
    NoDoubleStarNoPair(Sanitise(text));
  }

  /** Apart from stars, the sanitised text is the input with its quotes
      deleted and each newline turned into exactly one space. */
  lemma SanitiseKeepsText(text: string)
    ensures Drop(Sanitise(text), '*') == Drop(Subst(Drop(Drop(text, '"'), '\''), '\n', ' '), '*')
  {
    var a := ReplaceAll(text, "\"", "");
    var b := ReplaceAll(a, "'", "");
    ReplaceCharByNothing(text, '"');
    ReplaceCharByNothing(a, '\'');
    ReplaceCharByChar(b, '\n', ' ');
    StarRemovalDropsOnlyStars(ReplaceAll(b, "\n", " "));
  }
}
