/** The message filter: LIKE with a backslash escape, and the pattern that looks for a literal term. */
module Like {

  /** Whether two characters are the same for the comparison: equality for LIKE, a folding of case for ILIKE. */
  type Alike = (char, char) -> bool

  /** Does the text match the pattern? A pattern that ends inside an escape matches nothing. */
  ghost predicate Matches(alike: Alike, text: string, pattern: string)
    decreases |pattern|
  {
    if pattern == "" then text == ""
    else if pattern[0] == '%' then exists i :: 0 <= i <= |text| && Matches(alike, text[i..], pattern[1..])
    else if pattern[0] == '_' then text != "" && Matches(alike, text[1..], pattern[1..])
    else if pattern[0] == '\\' then
      |pattern| > 1 && text != "" && alike(text[0], pattern[1]) && Matches(alike, text[1..], pattern[2..])
    else text != "" && alike(text[0], pattern[0]) && Matches(alike, text[1..], pattern[1..])
  }

  /** The replacer of containsPattern, which looks at each character of the value once. */
  function Literally(c: char): string { if c == '\\' || c == '%' || c == '_' then ['\\', c] else [c] }

  function EscapeTerm(value: string): string {
    if value == "" then "" else Literally(value[0]) + EscapeTerm(value[1..])
  }

  function ContainsPattern(value: string): string { "%" + EscapeTerm(value) + "%" }

  /** The term stands in the text at this place. */
  predicate StandsAt(alike: Alike, text: string, term: string, at: nat) {
    at + |term| <= |text| && forall j :: 0 <= j < |term| ==> alike(text[at + j], term[j])
  }

  ghost predicate Occurs(alike: Alike, text: string, term: string) {
    exists at: nat :: StandsAt(alike, text, term, at)
  }

  lemma AnyRest(alike: Alike, text: string)
    ensures Matches(alike, text, "%")
  {
    assert Matches(alike, text[|text|..], "%"[1..]);
  }

  lemma {:induction false} EscapedPrefix(alike: Alike, text: string, term: string)
    ensures Matches(alike, text, EscapeTerm(term) + "%") <==> StandsAt(alike, text, term, 0)
    decreases |term|
  {
    if term == "" {
      assert EscapeTerm(term) + "%" == "%";
      AnyRest(alike, text);
    } else {
      var pattern := EscapeTerm(term) + "%";
      var rest := EscapeTerm(term[1..]) + "%";
      assert pattern == Literally(term[0]) + rest;
      assert pattern[|Literally(term[0])|..] == rest;
      assert Matches(alike, text, pattern)
         <==> text != "" && alike(text[0], term[0]) && Matches(alike, text[1..], rest);
      if text != "" {
        EscapedPrefix(alike, text[1..], term[1..]);
        StandsNext(alike, text, term);
      }
    }
  }

  lemma StandsNext(alike: Alike, text: string, term: string)
    requires text != "" && term != ""
    ensures StandsAt(alike, text, term, 0) <==> alike(text[0], term[0]) && StandsAt(alike, text[1..], term[1..], 0)
  {
    if alike(text[0], term[0]) && StandsAt(alike, text[1..], term[1..], 0) {
      forall j | 0 <= j < |term| ensures alike(text[j], term[j]) {
        if j > 0 { assert alike(text[1..][0 + (j - 1)], term[1..][j - 1]); }
      }
    }
    if StandsAt(alike, text, term, 0) {
      assert alike(text[0 + 0], term[0]);
      forall j | 0 <= j < |term| - 1 ensures alike(text[1..][j], term[1..][j]) {
        assert alike(text[0 + (j + 1)], term[j + 1]);
      }
    }
  }

  lemma StandsFrom(alike: Alike, text: string, term: string, i: nat)
    requires i <= |text|
    ensures StandsAt(alike, text[i..], term, 0) <==> StandsAt(alike, text, term, i)
  {
    var tail := text[i..];
    if i + |term| <= |text| {
      assert forall j :: 0 <= j < |term| ==> tail[j] == text[i + j];
    }
  }

  /**
    The pattern is exact: a message matches it if and only if the term occurs in the message as it
    is written, with percent, underscore and backslash standing for themselves.
  */
  lemma ContainsPatternExact(alike: Alike, text: string, term: string)
    ensures Matches(alike, text, ContainsPattern(term)) <==> Occurs(alike, text, term)
  {
    var pattern := ContainsPattern(term);
    var rest := EscapeTerm(term) + "%";
    assert pattern == "%" + rest && pattern[1..] == rest;
    if Matches(alike, text, pattern) {
      var i :| 0 <= i <= |text| && Matches(alike, text[i..], pattern[1..]);
      EscapedPrefix(alike, text[i..], term);
      StandsFrom(alike, text, term, i);
    }
    if Occurs(alike, text, term) {
      var at: nat :| StandsAt(alike, text, term, at);
      EscapedPrefix(alike, text[at..], term);
      StandsFrom(alike, text, term, at);
      assert Matches(alike, text[at..], pattern[1..]);
    }
  }

  // ---- what the escape is for

  /** No character of the term means anything to LIKE. */
  predicate Plain(term: string) { '\\' !in term && '%' !in term && '_' !in term }

  lemma {:induction false} PlainEscapesToItself(term: string)
    requires Plain(term)
    ensures EscapeTerm(term) == term
  {
    if term != "" { PlainEscapesToItself(term[1..]); }
  }

  /** A message that the term, used as it is, matches: wildcards match little, a backslash vanishes. */
  function Sample(term: string): string
    decreases |term|
  {
    if term == "" then ""
    else if term[0] == '%' then Sample(term[1..])
    else if term[0] == '_' then "a" + Sample(term[1..])
    else if term[0] == '\\' then if |term| == 1 then "%" else [term[1]] + Sample(term[2..])
    else [term[0]] + Sample(term[1..])
  }

  ghost predicate Exactly(alike: Alike) { forall c, d :: alike(c, d) <==> c == d }

  lemma {:induction false} SampleMatches(alike: Alike, term: string)
    requires Exactly(alike)
    ensures Matches(alike, Sample(term), term + "%")
    decreases |term|
  {
    var pattern := term + "%";
    if term == "" {
      assert pattern == "%";
      AnyRest(alike, "");
    } else if term == "\\" {
      assert pattern[2..] == "" && "%"[1..] == "";
    } else if term[0] == '\\' {
      SampleMatches(alike, term[2..]);
      assert pattern[2..] == term[2..] + "%" && Sample(term)[1..] == Sample(term[2..]);
    } else {
      SampleMatches(alike, term[1..]);
      assert pattern[1..] == term[1..] + "%";
      assert term[0] != '%' ==> Sample(term)[1..] == Sample(term[1..]);
      assert Sample(term)[0..] == Sample(term);
    }
  }

  lemma {:induction false} SampleDiffers(term: string)
    ensures |Sample(term)| <= |term|
    ensures !Plain(term) ==> Sample(term) != term
    decreases |term|
  {
    if |term| > 1 && term[0] == '\\' {
      SampleDiffers(term[2..]);
    } else if term != "" {
      SampleDiffers(term[1..]);
      assert term == [term[0]] + term[1..];
    }
  }

  /**
    The escape is needed exactly where there is something to escape: used as it is between two
    percent signs, a term matches the messages that contain it, and no others, if and only if no
    character of it is special.
  */
  lemma EscapeNeeded(alike: Alike, term: string)
    requires Exactly(alike)
    ensures Plain(term) <==> forall text :: Matches(alike, text, "%" + term + "%") <==> Occurs(alike, text, term)
  {
    var pattern := "%" + term + "%";
    if Plain(term) {
      PlainEscapesToItself(term);
      forall text ensures Matches(alike, text, pattern) <==> Occurs(alike, text, term) {
        ContainsPatternExact(alike, text, term);
      }
    } else {
      var text := Sample(term);
      SampleMatches(alike, term);
      SampleDiffers(term);
      assert pattern[1..] == term + "%" && text[0..] == text;
      assert Matches(alike, text, pattern);
      assert !Occurs(alike, text, term) by { NotInItsSample(alike, term); }
    }
  }

  lemma NotInItsSample(alike: Alike, term: string)
    requires Exactly(alike) && Sample(term) != term && |Sample(term)| <= |term|
    ensures !Occurs(alike, Sample(term), term)
  {
    var text := Sample(term);
    forall at: nat ensures !StandsAt(alike, text, term, at) {
      if |text| == |term| {
        var j :| 0 <= j < |term| && text[j] != term[j];
        assert at == 0 ==> !alike(text[at + j], term[j]);
      }
    }
  }
}
