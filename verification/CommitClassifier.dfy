/** Which shell commands may be a `git commit`, and that the answer is found segment by segment. */
module CommitClassifier {
  import opened Prelude
  import opened ShellTokens

  const ENV: Text := ['e', 'n', 'v']
  const COMMAND: Text := ['c', 'o', 'm', 'm', 'a', 'n', 'd']
  const GIT: Text := ['g', 'i', 't']
  const COMMIT: Text := ['c', 'o', 'm', 'm', 'i', 't']
  const DIRECTORY_OPTION: Text := ['-', 'C']
  const CONFIG_OPTION: Text := ['-', 'c']
  const LONG_OPTIONS: seq<Text> := ["--git-dir", "--work-tree", "--namespace", "--exec-path"]

  // ----- words --------------------------------------------------------------------------------------------

  predicate IsAlphabetic(c: char) {
    'a' <= c <= 'z' || 'A' <= c <= 'Z'
  }

  predicate NameCharacter(c: char, first: bool) {
    c == '_' || IsAlphabetic(c) || (!first && '0' <= c <= '9')
  }

  /** The length of the part before the first equals sign, or of the whole word. */
  function NameLength(word: Text): (n: nat)
    ensures n <= |word| && (n < |word| ==> word[n] == '=') && forall i :: 0 <= i < n ==> word[i] != '='
  {
    if word == [] || word[0] == '=' then 0 else 1 + NameLength(word[1..])
  }

  /** `NAME=value` with a shell variable name. */
  predicate IsAssignment(word: Text) {
    var n := NameLength(word);
    0 < n < |word| && forall i :: 0 <= i < n ==> NameCharacter(word[i], i == 0)
  }

  /** What follows the last slash. */
  function ExecutableName(word: Text): Text {
    if word == [] then []
    else if '/' in word[1..] || word[0] == '/' then ExecutableName(word[1..]) else word
  }

  predicate IsOption(word: Text) {
    word != [] && word[0] == '-'
  }

  predicate ConsumesNext(word: Text) {
    word == DIRECTORY_OPTION || word == CONFIG_OPTION || word in LONG_OPTIONS
  }

  // ----- one segment --------------------------------------------------------------------------------------

  function SkipWhile(words: seq<Text>, i: nat, skipped: Text -> bool): (n: nat)
    requires i <= |words|
    ensures i <= n <= |words|
    ensures forall j :: i <= j < n ==> skipped(words[j])
    ensures n < |words| ==> !skipped(words[n])
    decreases |words| - i
  {
    if i < |words| && skipped(words[i]) then SkipWhile(words, i + 1, skipped) else i
  }

  predicate EnvArgument(word: Text) {
    IsAssignment(word) || IsOption(word)
  }

  predicate Runs(words: seq<Text>, i: nat, name: Text) {
    i < |words| && ExecutableName(words[i]) == name
  }

  /** Where `env` and its arguments end, if the word is `env`. */
  function AfterEnv(words: seq<Text>, i: nat): (n: nat)
    requires i <= |words|
    ensures i <= n <= |words|
  {
    if Runs(words, i, ENV) then SkipWhile(words, i + 1, EnvArgument) else i
  }

  function AfterCommand(words: seq<Text>, i: nat): (n: nat)
    requires i <= |words|
    ensures i <= n <= |words|
  {
    if Runs(words, i, COMMAND) then SkipWhile(words, i + 1, IsOption) else i
  }

  /** The position of the program word: after assignments, `env` with its arguments and `command` with its options. */
  function ProgramIndex(words: seq<Text>): (n: nat)
    ensures n <= |words|
  {
    AfterCommand(words, AfterEnv(words, SkipWhile(words, 0, IsAssignment)))
  }

  /** The arguments of git from `i` on reach the word `commit` over options only. */
  predicate ReachesCommit(words: seq<Text>, i: nat)
    decreases |words| - i
  {
    i < |words| &&
    (words[i] == COMMIT
     || (IsOption(words[i]) &&
         if ConsumesNext(words[i]) then i + 1 < |words| && ReachesCommit(words, i + 2) else ReachesCommit(words, i + 1)))
  }

  predicate IsGitCommit(words: seq<Text>) {
    var program := ProgramIndex(words);
    Runs(words, program, GIT) && ReachesCommit(words, program + 1)
  }

  function WordsOf(segment: seq<Token>): seq<Text> {
    if segment == [] then []
    else (if segment[0].Word? then [segment[0].text] else []) + WordsOf(segment[1..])
  }

  method Skip(words: seq<Text>, start: nat, skipped: Text -> bool) returns (index: nat)
    requires start <= |words|
    ensures index == SkipWhile(words, start, skipped)
  {
    index := start;
    while index < |words| && skipped(words[index])
      invariant start <= index <= |words|
      invariant SkipWhile(words, start, skipped) == SkipWhile(words, index, skipped)
    {
      index := index + 1;
    }
  }

  method SegmentIsGitCommit(segment: seq<Token>) returns (r: bool)
    ensures r == IsGitCommit(WordsOf(segment))
  {
    hide ExecutableName, IsAssignment, ConsumesNext, IsOption, EnvArgument, ReachesCommit, SkipWhile, WordsOf;
    var words := WordsOf(segment);
    if words == [] {
      return false;
    }
    var index := Skip(words, 0, IsAssignment);
    if index < |words| && ExecutableName(words[index]) == ENV {
      index := Skip(words, index + 1, EnvArgument);
    }
    if index < |words| && ExecutableName(words[index]) == COMMAND {
      index := Skip(words, index + 1, IsOption);
    }
    if index >= |words| || ExecutableName(words[index]) != GIT {
      return false;
    }
    assert index == ProgramIndex(words);
    index := index + 1;
    r := ArgumentsReachCommit(words, index);
  }

  method ArgumentsReachCommit(words: seq<Text>, start: nat) returns (r: bool)
    ensures r == ReachesCommit(words, start)
  {
    var index := start;
    while index < |words|
      invariant ReachesCommit(words, start) == ReachesCommit(words, index)
    {
      var word := words[index];
      if word == COMMIT {
        return true;
      }
      if !IsOption(word) {
        return false;
      }
      index := index + 1;
      if ConsumesNext(word) {
        if index >= |words| {
          return false;
        }
        index := index + 1;
      }
    }
    r := false;
  }

  // ----- whole commands -----------------------------------------------------------------------------------

  /** The segments between separators. */
  function Segments(tokens: seq<Token>): (r: seq<seq<Token>>)
    ensures r != []
  {
    if tokens == [] then [[]]
    else if tokens[0] == Separator then [[]] + Segments(tokens[1..])
    else
      var more := Segments(tokens[1..]);
      [[tokens[0]] + more[0]] + more[1..]
  }

  ghost predicate AnyCommit(segments: seq<seq<Token>>) {
    exists i :: 0 <= i < |segments| && IsGitCommit(WordsOf(segments[i]))
  }

  ghost predicate Candidate(command: Text) {
    Tokens(command).Some? && AnyCommit(Segments(Tokens(command).value))
  }

  method IsCandidate(command: Text) returns (r: bool)
    ensures r <==> Candidate(command)
  {
    hide Tokens, Segments, IsGitCommit, WordsOf;
    var tokens := Tokenize(command);
    if tokens.None? {
      return false;
    }
    var segments := Segments(tokens.value);
    for i := 0 to |segments|
      invariant forall j :: 0 <= j < i ==> !IsGitCommit(WordsOf(segments[j]))
    {
      var commit := SegmentIsGitCommit(segments[i]);
      if commit {
        return true;
      }
    }
    r := false;
  }

  lemma AnyCommitConcat(a: seq<seq<Token>>, b: seq<seq<Token>>)
    ensures AnyCommit(a + b) <==> AnyCommit(a) || AnyCommit(b)
  {
    hide IsGitCommit, WordsOf;
    var all := a + b;
    if AnyCommit(a) {
      var i :| 0 <= i < |a| && IsGitCommit(WordsOf(a[i]));
      assert all[i] == a[i];
    }
    if AnyCommit(b) {
      var i :| 0 <= i < |b| && IsGitCommit(WordsOf(b[i]));
      assert all[|a| + i] == b[i];
    }
  }

  lemma EmptySegmentIsNoCommit()
    ensures !AnyCommit([[]])
  {
  }

  lemma {:induction false} SegmentsAroundSeparator(a: seq<Token>, b: seq<Token>)
    ensures Segments(a + [Separator] + b) == Segments(a) + Segments(b)
  {
    if a == [] {
      assert a + [Separator] + b == [Separator] + b;
      assert ([Separator] + b)[1..] == b;
    } else {
      assert (a + [Separator] + b)[1..] == a[1..] + [Separator] + b;
      SegmentsAroundSeparator(a[1..], b);
    }
  }

  /** Whether any segment is a commit does not depend on separators at the ends. */
  lemma GluedSegments(a: seq<Token>, b: seq<Token>)
    ensures AnyCommit(Segments(Glue(Closed(a), b))) <==> AnyCommit(Segments(a)) || AnyCommit(Segments(b))
  {
    hide AnyCommit, Segments;
    var front := if EndsWithSeparator(a) then a[..|a| - 1] else a;
    var back := if b != [] && b[0] == Separator then b[1..] else b;
    assert Closed(a) == front + [Separator];
    assert Glue(Closed(a), b) == front + [Separator] + back;
    SegmentsAroundSeparator(front, back);
    AnyCommitConcat(Segments(front), Segments(back));
    if EndsWithSeparator(a) {
      TrailingSeparator(front);
      assert a == front + [Separator];
    }
    if b != [] && b[0] == Separator {
      LeadingSeparator(back);
      assert b == [Separator] + back;
    }
  }

  lemma TrailingSeparator(a: seq<Token>)
    ensures AnyCommit(Segments(a + [Separator])) <==> AnyCommit(Segments(a))
  {
    hide AnyCommit, Segments;
    assert a + [Separator] == a + [Separator] + [];
    SegmentsAroundSeparator(a, []);
    NoTokensNoCommit();
    AnyCommitConcat(Segments(a), Segments([]));
  }

  lemma LeadingSeparator(b: seq<Token>)
    ensures AnyCommit(Segments([Separator] + b)) <==> AnyCommit(Segments(b))
  {
    hide AnyCommit, Segments;
    assert [Separator] + b == [] + [Separator] + b;
    SegmentsAroundSeparator([], b);
    NoTokensNoCommit();
    AnyCommitConcat(Segments([]), Segments(b));
  }

  lemma NoTokensNoCommit()
    ensures !AnyCommit(Segments([]))
  {
    EmptySegmentIsNoCommit();
  }

  /** Two commands with a separator between them are a candidate exactly when one of them is. */
  lemma ClassifierIsCompositional(a: Text, c: char, b: Text)
    requires c in ['\n', ';', '|', '&', '(', ')'] && Tokens(a).Some? && Tokens(b).Some?
    ensures Candidate(a + [c] + b) <==> Candidate(a) || Candidate(b)
  {
    hide Tokens, Glue, Closed, AnyCommit, Segments;
    TokensOfJoined(a, c, b);
    GluedSegments(Tokens(a).value, Tokens(b).value);
  }
}
