/**
 * Exactly which command lines are taken for a `git commit`, as a grammar of words. The grammar spells out every name and
 * option, and says nothing of how the classifier walks over them.
 */
module CommitShapes {
  import opened Prelude
  import opened ShellTokens
  import opened CommitClassifier

  // ----- the grammar --------------------------------------------------------------------------------------

  /** `NAME=value`: the name is made of letters, digits and underscores and starts with no digit. */
  ghost predicate Assigns(word: Text) {
    exists n :: 0 < n < |word| && NamesVariable(word, n)
  }

  ghost predicate NamesVariable(word: Text, n: int)
    requires 0 < n < |word|
  {
    word[n] == '=' &&
    forall i :: 0 <= i < n ==>
      'a' <= word[i] <= 'z' || 'A' <= word[i] <= 'Z' || word[i] == '_' || (i > 0 && '0' <= word[i] <= '9')
  }

  /** The name itself, or any path that ends in a slash and the name. */
  ghost predicate Program(word: Text, name: Text) {
    word == name || (|word| > |name| && word[|word| - |name| - 1] == '/' && word[|word| - |name|..] == name)
  }

  ghost predicate Dashed(word: Text) {
    word != [] && word[0] == '-'
  }

  /** The options of git that take the next word. */
  ghost predicate TakesNext(word: Text) {
    || word == "-C" || word == "-c"
    || word == "--git-dir" || word == "--work-tree" || word == "--namespace" || word == "--exec-path"
  }

  /** Options before the subcommand, those that take a word each followed by one. */
  ghost predicate GitOptions(options: seq<Text>) {
    options == [] ||
    if TakesNext(options[0]) then |options| >= 2 && GitOptions(options[2..])
    else Dashed(options[0]) && GitOptions(options[1..])
  }

  /** The parts of a command line. */
  datatype Parts = Parts(
    assignments: seq<Text>, env: seq<Text>, command: seq<Text>, git: Text, options: seq<Text>, rest: seq<Text>)

  /** A program word that the part before it does not swallow. */
  ghost predicate NotSwallowed(p: Parts, word: Text, afterCommand: bool) {
    if afterCommand && p.command != [] then !Dashed(word)
    else !Assigns(word) && (p.env != [] ==> !Dashed(word))
  }

  /**
   * Assignments; perhaps `env` with assignments and options; perhaps `command` with options; git with its options; `commit`;
   * anything.
   */
  ghost predicate Shaped(words: seq<Text>, p: Parts) {
    && words == p.assignments + p.env + p.command + [p.git] + p.options + ["commit"] + p.rest
    && (forall word :: word in p.assignments ==> Assigns(word))
    && (p.env != [] ==>
          && Program(p.env[0], "env") && !Assigns(p.env[0])
          && forall word :: word in p.env[1..] ==> Assigns(word) || Dashed(word))
    && (p.command != [] ==>
          && Program(p.command[0], "command") && NotSwallowed(p, p.command[0], false)
          && forall word :: word in p.command[1..] ==> Dashed(word))
    && Program(p.git, "git") && NotSwallowed(p, p.git, true)
    && GitOptions(p.options)
  }

  // ----- words --------------------------------------------------------------------------------------------

  lemma AssignmentLaw(word: Text)
    ensures IsAssignment(word) <==> Assigns(word)
  {
    var n := NameLength(word);
    if IsAssignment(word) {
      assert NamesVariable(word, n);
    }
    if Assigns(word) {
      var m :| 0 < m < |word| && NamesVariable(word, m);
      assert n == m;
    }
  }

  /** The first character of a path does not matter. */
  lemma ProgramOfRest(word: Text, name: Text)
    requires '/' !in name && word != [] && ('/' in word[1..] || word[0] == '/')
    ensures Program(word, name) <==> Program(word[1..], name)
  {
    var rest := word[1..];
    if |word| > |name| + 1 {
      assert word[|word| - |name|..] == rest[|rest| - |name|..];
    } else if |word| == |name| + 1 {
      assert word[|word| - |name|..] == rest;
    }
  }

  lemma {:induction false} ExecutableLaw(word: Text, name: Text)
    requires name != [] && '/' !in name
    ensures ExecutableName(word) == name <==> Program(word, name)
  {
    if word == [] {
    } else if '/' in word[1..] || word[0] == '/' {
      ExecutableLaw(word[1..], name);
      ProgramOfRest(word, name);
      hide Program;
    } else {
      assert '/' !in word;
    }
  }

  lemma Names()
    ensures ENV == "env" && COMMAND == "command" && GIT == "git" && COMMIT == "commit"
    ensures forall word :: ConsumesNext(word) <==> TakesNext(word)
    ensures forall word :: IsOption(word) <==> Dashed(word)
  {
  }

  /** The words of the classifier are those of the grammar. */
  lemma WordLaws()
    ensures forall word :: IsAssignment(word) <==> Assigns(word)
    ensures forall word :: EnvArgument(word) <==> Assigns(word) || Dashed(word)
    ensures forall word :: ExecutableName(word) == ENV <==> Program(word, "env")
    ensures forall word :: ExecutableName(word) == COMMAND <==> Program(word, "command")
    ensures forall word :: ExecutableName(word) == GIT <==> Program(word, "git")
  {
    Names();
    forall word
      ensures IsAssignment(word) <==> Assigns(word)
      ensures ExecutableName(word) == ENV <==> Program(word, "env")
      ensures ExecutableName(word) == COMMAND <==> Program(word, "command")
      ensures ExecutableName(word) == GIT <==> Program(word, "git")
    {
      AssignmentLaw(word);
      ExecutableLaw(word, "env");
      ExecutableLaw(word, "command");
      ExecutableLaw(word, "git");
    }
    hide IsAssignment, Assigns, Program, ExecutableName, Dashed;
  }

  // ----- options ------------------------------------------------------------------------------------------

  lemma {:induction false} ReachedOverOptions(words: seq<Text>, i: nat) returns (options: seq<Text>, rest: seq<Text>)
    requires ReachesCommit(words, i)
    ensures i < |words| && words[i..] == options + ["commit"] + rest && GitOptions(options)
    decreases |words| - i
  {
    Names();
    hide ConsumesNext, TakesNext, IsOption, Dashed;
    if words[i] == COMMIT {
      options, rest := [], words[i + 1..];
      assert words[i..] == ["commit"] + rest;
    } else if ConsumesNext(words[i]) {
      var more, r := ReachedOverOptions(words, i + 2);
      options, rest := [words[i], words[i + 1]] + more, r;
      assert options[2..] == more;
      assert words[i..] == [words[i], words[i + 1]] + words[i + 2..];
    } else {
      var more, r := ReachedOverOptions(words, i + 1);
      options, rest := [words[i]] + more, r;
      assert options[1..] == more;
      assert words[i..] == [words[i]] + words[i + 1..];
    }
  }

  lemma {:induction false} OptionsReach(words: seq<Text>, i: nat, options: seq<Text>, rest: seq<Text>)
    requires i <= |words| && words[i..] == options + ["commit"] + rest && GitOptions(options)
    ensures ReachesCommit(words, i)
    decreases |words| - i
  {
    Names();
    assert i < |words| && words[i] == words[i..][0];
    if options == [] {
      assert words[i] == "commit";
    } else {
      assert words[i] == options[0];
      hide ConsumesNext;
      if TakesNext(options[0]) {
        assert words[i + 2..] == options[2..] + ["commit"] + rest;
        OptionsReach(words, i + 2, options[2..], rest);
      } else {
        assert words[i + 1..] == options[1..] + ["commit"] + rest;
        OptionsReach(words, i + 1, options[1..], rest);
      }
    }
  }

  // ----- recognition --------------------------------------------------------------------------------------

  /** The grammar up to git, by the positions where `env`, `command` and git stand. */
  ghost predicate ShapedAt(words: seq<Text>, a: nat, e: nat, g: nat) {
    && a <= e <= g < |words|
    && (forall j :: 0 <= j < a ==> IsAssignment(words[j]))
    && (a < e ==>
          && ExecutableName(words[a]) == ENV && !IsAssignment(words[a])
          && forall j :: a < j < e ==> EnvArgument(words[j]))
    && (e < g ==>
          && ExecutableName(words[e]) == COMMAND && !(if a < e then EnvArgument(words[e]) else IsAssignment(words[e]))
          && forall j :: e < j < g ==> IsOption(words[j]))
    && ExecutableName(words[g]) == GIT
    && !(if e < g then IsOption(words[g]) else if a < e then EnvArgument(words[g]) else IsAssignment(words[g]))
  }

  lemma ProgramIsShaped(words: seq<Text>)
    requires Runs(words, ProgramIndex(words), GIT)
    ensures var a := SkipWhile(words, 0, IsAssignment); ShapedAt(words, a, AfterEnv(words, a), ProgramIndex(words))
  {
    hide IsAssignment, EnvArgument, IsOption, ExecutableName, SkipWhile;
  }

  /** Where skipping stops is determined by what it skips. */
  lemma SkipStopsAt(words: seq<Text>, i: nat, n: nat, skipped: Text -> bool)
    requires i <= n < |words| && (forall j :: i <= j < n ==> skipped(words[j])) && !skipped(words[n])
    ensures SkipWhile(words, i, skipped) == n
  {
    hide SkipWhile;
  }

  lemma ShapedProgram(words: seq<Text>, a: nat, e: nat, g: nat)
    requires ShapedAt(words, a, e, g)
    ensures ProgramIndex(words) == g && Runs(words, g, GIT)
  {
    SkipStopsAt(words, 0, a, IsAssignment);
    if a < e {
      SkipStopsAt(words, a + 1, e, EnvArgument);
    }
    if e < g {
      SkipStopsAt(words, e + 1, g, IsOption);
    }
    hide IsAssignment, EnvArgument, IsOption, ExecutableName, SkipWhile;
  }

  ghost function PartsAt(words: seq<Text>, a: nat, e: nat, g: nat, options: seq<Text>, rest: seq<Text>): Parts
    requires a <= e <= g < |words|
  {
    Parts(words[..a], words[a..e], words[e..g], words[g], options, rest)
  }

  lemma PartsConcat(words: seq<Text>, a: nat, e: nat, g: nat, options: seq<Text>, rest: seq<Text>)
    requires a <= e <= g < |words| && words[g + 1..] == options + ["commit"] + rest
    ensures words == words[..a] + words[a..e] + words[e..g] + [words[g]] + options + ["commit"] + rest
  {
    var front := words[..a] + words[a..e] + words[e..g] + [words[g]];
    assert words == front + words[g + 1..];
    assert front + (options + ["commit"] + rest) == front + options + ["commit"] + rest;
  }

  lemma SliceHolds(words: seq<Text>, lo: nat, hi: nat, holds: Text -> bool)
    requires lo <= hi <= |words| && forall j :: lo < j < hi ==> holds(words[j])
    ensures lo < hi ==> words[lo..hi] != [] && words[lo..hi][0] == words[lo] && forall word :: word in words[lo..hi][1..] ==> holds(word)
  {
    if lo < hi {
      forall word | word in words[lo..hi][1..] ensures holds(word) {
        var j :| 0 <= j < |words[lo..hi][1..]| && words[lo..hi][1..][j] == word;
        assert word == words[lo + 1 + j];
      }
    }
  }

  lemma PartsAreShaped(words: seq<Text>, a: nat, e: nat, g: nat, options: seq<Text>, rest: seq<Text>)
    requires ShapedAt(words, a, e, g) && words[g + 1..] == options + ["commit"] + rest && GitOptions(options)
    ensures Shaped(words, PartsAt(words, a, e, g, options, rest))
  {
    WordLaws();
    Names();
    PartsConcat(words, a, e, g, options, rest);
    SliceHolds(words, a, e, EnvArgument);
    SliceHolds(words, e, g, IsOption);
    hide Assigns, Dashed, Program, IsAssignment, IsOption, ExecutableName, GitOptions, EnvArgument, TakesNext, ConsumesNext;
    var p := PartsAt(words, a, e, g, options, rest);
    assert words == p.assignments + p.env + p.command + [p.git] + p.options + ["commit"] + p.rest;
  }

  lemma ShapedParts(words: seq<Text>, p: Parts)
    requires Shaped(words, p)
    ensures var a := |p.assignments|; var e := a + |p.env|; var g := e + |p.command|;
            ShapedAt(words, a, e, g) && words[g + 1..] == p.options + ["commit"] + p.rest
  {
    var a := |p.assignments|;
    var e := a + |p.env|;
    var g := e + |p.command|;
    WordLaws();
    Names();
    hide Assigns, Dashed, Program, IsAssignment, IsOption, ExecutableName, GitOptions;
    assert words == p.assignments + p.env + p.command + [p.git] + (p.options + ["commit"] + p.rest);
    assert words[g] == p.git;
    forall j | 0 <= j < a ensures IsAssignment(words[j]) {
      assert words[j] == p.assignments[j];
    }
    forall j | a < j < e ensures EnvArgument(words[j]) {
      assert words[j] == p.env[1..][j - a - 1];
    }
    forall j | e < j < g ensures IsOption(words[j]) {
      assert words[j] == p.command[1..][j - e - 1];
    }
  }

  /** The words of a segment are a commit exactly when the grammar has them. */
  lemma RecognisedExactlyWhen(words: seq<Text>)
    ensures IsGitCommit(words) <==> exists p :: Shaped(words, p)
  {
    hide ShapedAt, Shaped, ReachesCommit, GitOptions;
    if IsGitCommit(words) {
      ProgramIsShaped(words);
      var a, g := SkipWhile(words, 0, IsAssignment), ProgramIndex(words);
      var options, rest := ReachedOverOptions(words, g + 1);
      PartsAreShaped(words, a, AfterEnv(words, a), g, options, rest);
    }
    if p :| Shaped(words, p) {
      ShapedParts(words, p);
      var a := |p.assignments|;
      ShapedProgram(words, a, a + |p.env|, a + |p.env| + |p.command|);
      OptionsOf(words, p);
      OptionsReach(words, a + |p.env| + |p.command| + 1, p.options, p.rest);
    }
  }

  lemma OptionsOf(words: seq<Text>, p: Parts)
    requires Shaped(words, p)
    ensures GitOptions(p.options) && |p.assignments| + |p.env| + |p.command| < |words|
  {
  }

  /** Arguments after the recognised words do not matter. */
  lemma LaterArgumentsDoNotMatter(words: seq<Text>, more: seq<Text>)
    requires IsGitCommit(words)
    ensures IsGitCommit(words + more)
  {
    RecognisedExactlyWhen(words);
    var p :| Shaped(words, p);
    LongerIsShaped(words, p, more);
    RecognisedExactlyWhen(words + more);
    hide Shaped, IsGitCommit;
  }

  lemma LongerIsShaped(words: seq<Text>, p: Parts, more: seq<Text>)
    requires Shaped(words, p)
    ensures Shaped(words + more, p.(rest := p.rest + more))
  {
    hide Assigns, Dashed, Program, GitOptions;
    var front := p.assignments + p.env + p.command + [p.git] + p.options + ["commit"];
    assert front + p.rest + more == front + (p.rest + more);
  }

  // ----- whole command lines ------------------------------------------------------------------------------

  lemma {:induction false} WordsAreOneSegment(words: seq<Text>)
    ensures Segments(Words(words)) == [Words(words)] && WordsOf(Words(words)) == words
  {
    if words != [] {
      WordsAreOneSegment(words[1..]);
      assert Words(words)[1..] == Words(words[1..]);
    }
  }

  /** A command line that spells words, however each is quoted, is a candidate exactly when the grammar has the words. */
  lemma SpelledCommandsAreDecided(texts: seq<Text>, words: seq<Text>)
    requires SpelledOut(texts, words)
    ensures Candidate(Spaced(texts)) <==> exists p :: Shaped(words, p)
  {
    SpellingRoundTrip(texts, words);
    WordsAreOneSegment(words);
    RecognisedExactlyWhen(words);
    hide Tokens, Spaced, SpelledOut, Words, Segments, WordsOf, IsGitCommit, Shaped;
    var segments := Segments(Tokens(Spaced(texts)).value);
    assert segments[0] == Words(words);
  }

  lemma GitIsPlain()
    ensures Program("git", "git") && !Assigns("git")
  {
  }

  lemma DirectoryOptions(directory: Text)
    ensures GitOptions(["-C", directory])
  {
    var options := ["-C", directory];
    assert options[2..] == [];
  }

  lemma DirectoryCommitIsShaped(directory: Text, rest: seq<Text>)
    ensures Shaped(["git", "-C", directory, "commit"] + rest, Parts([], [], [], "git", ["-C", directory], rest))
  {
    GitIsPlain();
    DirectoryOptions(directory);
    hide Program, Assigns, Dashed, GitOptions;
  }

  /** `git -C <directory> commit` and whatever follows, in any directory and any spelling. */
  lemma CommitInDirectory(texts: seq<Text>, directory: Text, rest: seq<Text>)
    requires SpelledOut(texts, ["git", "-C", directory, "commit"] + rest)
    ensures Candidate(Spaced(texts))
  {
    DirectoryCommitIsShaped(directory, rest);
    hide Shaped, Candidate, Spaced, SpelledOut;
    SpelledCommandsAreDecided(texts, ["git", "-C", directory, "commit"] + rest);
  }
}
