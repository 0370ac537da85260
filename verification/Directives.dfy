/** What a directive asks for, given by how it is written. */
module Directives {
  import opened Prelude
  import opened Syntax

  predicate Blank(s: string) {
    forall i | 0 <= i < |s| :: IsWhitespace(s[i])
  }

  predicate Word(s: string) {
    s != "" && forall i | 0 <= i < |s| :: !IsWhitespace(s[i])
  }

  /** Text that does not go on with the word in front of it. */
  predicate Apart(s: string) {
    s == "" || IsWhitespace(s[0])
  }

  lemma {:induction false} RunReaches(text: string, i: nat, j: nat, white: bool)
    requires i <= j <= |text| && forall k | i <= k < j :: IsWhitespace(text[k]) == white
    requires j < |text| ==> IsWhitespace(text[j]) != white
    ensures RunEnd(text, i, white) == j
    decreases j - i
  {
    hide IsWhitespace;
    if i < j {
      RunReaches(text, i + 1, j, white);
    }
  }

  /** The next word behind `front` is found behind the blanks. */
  lemma WordFound(front: string, gap: string, word: string, rest: string)
    requires Blank(gap) && Word(word) && Apart(rest)
    ensures NextWord(front + gap + word + rest, |front|) == Some((word, |front + gap + word|))
  {
    hide IsWhitespace;
    var text := front + gap + word + rest;
    var start, end := |front + gap|, |front + gap + word|;
    assert forall k | |front| <= k < start :: text[k] == gap[k - |front|];
    assert forall k | start <= k < end :: text[k] == word[k - start];
    assert end < |text| ==> text[end] == rest[0];
    assert text[start] == word[0];
    RunReaches(text, |front|, start, true);
    RunReaches(text, start, end, false);
    assert text[start..end] == word;
  }

  lemma NoWordFound(front: string, gap: string)
    requires Blank(gap)
    ensures NextWord(front + gap, |front|) == None
  {
    hide IsWhitespace;
    var text := front + gap;
    assert forall k | |front| <= k < |text| :: text[k] == gap[k - |front|];
    RunReaches(text, |front|, |text|, true);
    RunReaches(text, |text|, |text|, false);
  }

  /** `YAML` and a version, however spaced and whatever follows, asks for that version, or fails if there is none. */
  lemma VersionAsked(lead: string, gap: string, version: string, rest: string)
    requires Blank(lead) && Blank(gap) && gap != "" && Word(version) && Apart(rest)
    ensures DirectiveVersion(lead + "YAML" + gap + version + rest) ==
      if version == "1.1" || version == "1.1." then Ok(Some(Version11))
      else if version == "1.2" || version == "1.2." then Ok(Some(Version12))
      else Err(InvalidDirective)
  {
    hide NextWord;
    var text := lead + "YAML" + gap + version + rest;
    NameIs("YAML");
    WordFound("", lead, "YAML", gap + version + rest);
    assert "" + lead + "YAML" + (gap + version + rest) == text;
    WordFound(lead + "YAML", gap, version, rest);
    assert |"" + lead + "YAML"| == |lead + "YAML"|;
  }

  lemma NameIs(name: string)
    requires name == "YAML"
    ensures Word(name)
  {
  }

  /** Any other directive, and `YAML` without a version, asks for nothing. */
  lemma NothingAsked(lead: string, name: string, rest: string)
    requires Blank(lead) && Apart(rest) && (name == "" ==> rest == "") && (name != "" ==> Word(name))
    requires name == "YAML" ==> Blank(rest)
    ensures DirectiveVersion(lead + name + rest) == Ok(None)
  {
    hide NextWord;
    if name == "" {
      NoWordFound("", lead);
      assert "" + lead == lead + name + rest;
    } else {
      WordFound("", lead, name, rest);
      assert "" + lead + name + rest == lead + name + rest && |"" + lead + name| == |lead + name|;
      if name == "YAML" {
        NoWordFound(lead + name, rest);
      }
    }
  }
}
