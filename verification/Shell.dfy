/** Quoting a command line for the guest's shell, and reading it back by the rules of section 2.2 of
    the POSIX Shell Command Language. */
module Shell {
  import opened Bytes

  // ---------------------------------------------------------------- quoting --

  /** Each `'` becomes `'"'"'`. */
  function Escaped(s: string): (r: string)
  {
    if s == [] then [] else (if s[0] == '\'' then "'\"'\"'" else [s[0]]) + Escaped(s[1..])
  }

  /** `shell_quote`. */
  function Quoted(s: string): (r: string)
  {
    "'" + Escaped(s) + "'"
  }

  function Joined(words: seq<string>): (r: string)
  {
    if words == [] then [] else if |words| == 1 then Quoted(words[0]) else Quoted(words[0]) + " " + Joined(words[1..])
  }

  /** `docker_command`. */
  function DockerCommand(args: seq<string>): (r: string)
  {
    if args == [] then "sudo -n docker" else "sudo -n docker " + Joined(args)
  }

  /** `cmd_execution_authorization_check`. */
  function AuthorizationCheck(marker: string): (r: string)
  {
    "test -f " + Quoted(marker) + " && cat " + Quoted(marker)
  }

  // ---------------------------------------------------------------- reading --

  datatype Mode = Bare | InSingle | InDouble

  /** A character that stands for itself outside quotes, wherever it occurs. */
  predicate IsPlain(c: char)
  {
    'a' <= c <= 'z' || 'A' <= c <= 'Z' || '0' <= c <= '9' || c in "-_./:,@+"
  }

  /** Words and `&&` lists, with both kinds of quotes. Text that needs any other rule of the shell
      is not read. `word` is the word being read, if one has begun. */
  function Read(s: string, mode: Mode, word: Option<string>, words: seq<string>,
      cmds: seq<seq<string>>): (r: Option<seq<seq<string>>>)
    decreases |s|
  {
    if s == [] then
      if mode.Bare? && Ended(words, word) != [] then Some(cmds + [Ended(words, word)]) else None
    else
      match mode
      case InSingle =>
        if s[0] == '\'' then Read(s[1..], Bare, word, words, cmds)
        else Read(s[1..], InSingle, Grown(word, s[0]), words, cmds)
      case InDouble =>
        if s[0] == '"' then Read(s[1..], Bare, word, words, cmds)
        else if s[0] in "$`\\" then None
        else Read(s[1..], InDouble, Grown(word, s[0]), words, cmds)
      case Bare =>
        if s[0] == '\'' then Read(s[1..], InSingle, Begun(word), words, cmds)
        else if s[0] == '"' then Read(s[1..], InDouble, Begun(word), words, cmds)
        else if s[0] == ' ' || s[0] == '\t' then Read(s[1..], Bare, None, Ended(words, word), cmds)
        else if "&&" <= s && Ended(words, word) != [] then Read(s[2..], Bare, None, [], cmds + [Ended(words, word)])
        else if IsPlain(s[0]) then Read(s[1..], Bare, Grown(word, s[0]), words, cmds)
        else None
  }

  function Begun(word: Option<string>): (r: Option<string>)
  {
    Some(if word.Some? then word.value else [])
  }

  function Grown(word: Option<string>, c: char): (r: Option<string>)
  {
    Some((if word.Some? then word.value else []) + [c])
  }

  function Ended(words: seq<string>, word: Option<string>): (r: seq<string>)
  {
    if word.Some? then words + [word.value] else words
  }

  /** The commands of an `&&` list, each as its words. */
  function ReadLine(s: string): (r: Option<seq<seq<string>>>)
  {
    Read(s, Bare, None, [], [])
  }

  // -------------------------------------------------------------- round trip --

  lemma Cons(c: char, s: string)
    ensures ([c] + s)[0] == c && ([c] + s)[1..] == s
  {
  }

  /** Inside single quotes, an escaped string followed by the closing quote reads as the string. */
  lemma {:induction false} EscapedReads(s: string, rest: string, w: string, words: seq<string>, cmds: seq<seq<string>>)
    ensures Read(Escaped(s) + "'" + rest, InSingle, Some(w), words, cmds) == Read(rest, Bare, Some(w + s), words, cmds)
    decreases |s|
  {
    if s == [] {
      assert Escaped(s) + "'" + rest == ['\''] + rest;
      Cons('\'', rest);
      assert w + s == w;
    } else {
      var tail := Escaped(s[1..]) + "'" + rest;
      EscapedReads(s[1..], rest, w + [s[0]], words, cmds);
      assert w + s == w + [s[0]] + s[1..];
      if s[0] == '\'' {
        assert Escaped(s) + "'" + rest == "'\"'\"'" + tail;
        QuoteReads(tail, w, words, cmds);
      } else {
        assert Escaped(s) + "'" + rest == [s[0]] + tail;
        Cons(s[0], tail);
      }
    }
  }

  /** Single quotes open and close. */
  lemma SingleReads(rest: string, w: string, words: seq<string>, cmds: seq<seq<string>>)
    ensures Read(['\''] + rest, InSingle, Some(w), words, cmds) == Read(rest, Bare, Some(w), words, cmds)
    ensures Read(['\''] + rest, Bare, Some(w), words, cmds) == Read(rest, InSingle, Some(w), words, cmds)
  {
    Cons('\'', rest);
  }

  /** Double quotes open and close, and a single quote within them stands for itself. */
  lemma DoubleReads(rest: string, w: string, words: seq<string>, cmds: seq<seq<string>>)
    ensures Read(['"'] + rest, Bare, Some(w), words, cmds) == Read(rest, InDouble, Some(w), words, cmds)
    ensures Read(['"'] + rest, InDouble, Some(w), words, cmds) == Read(rest, Bare, Some(w), words, cmds)
    ensures Read(['\''] + rest, InDouble, Some(w), words, cmds) == Read(rest, InDouble, Some(w + "'"), words, cmds)
  {
    Cons('"', rest);
    Cons('\'', rest);
  }

  /** Leave the single quotes, read one in double quotes, and enter them again. */
  lemma QuoteReads(tail: string, w: string, words: seq<string>, cmds: seq<seq<string>>)
    ensures Read("'\"'\"'" + tail, InSingle, Some(w), words, cmds) == Read(tail, InSingle, Some(w + "'"), words, cmds)
  {
    var s1 := "\"'\"'" + tail;
    var s2 := "'\"'" + tail;
    var s3 := "\"'" + tail;
    var s4 := "'" + tail;
    assert "'\"'\"'" + tail == ['\''] + s1 && s1 == ['"'] + s2 && s2 == ['\''] + s3 && s3 == ['"'] + s4;
    assert s4 == ['\''] + tail;
    hide Read;
    SingleReads(s1, w, words, cmds);
    DoubleReads(s2, w, words, cmds);
    DoubleReads(s3, w, words, cmds);
    DoubleReads(s4, w + "'", words, cmds);
    SingleReads(tail, w + "'", words, cmds);
  }

  /** A quoted string reads as one word, equal to the string. */
  lemma QuotedReads(s: string, rest: string, words: seq<string>, cmds: seq<seq<string>>)
    ensures Read(Quoted(s) + rest, Bare, None, words, cmds) == Read(rest, Bare, Some(s), words, cmds)
  {
    var tail := Escaped(s) + "'" + rest;
    assert Quoted(s) + rest == ['\''] + tail;
    Cons('\'', tail);
    EscapedReads(s, rest, [], words, cmds);
    assert [] + s == s;
  }

  lemma PlainStep(c: char, rest: string, w: Option<string>, words: seq<string>, cmds: seq<seq<string>>)
    requires IsPlain(c)
    ensures Read([c] + rest, Bare, w, words, cmds) == Read(rest, Bare, Grown(w, c), words, cmds)
  {
    Cons(c, rest);
  }

  lemma {:induction false} PlainReads(p: string, rest: string, w: Option<string>, words: seq<string>,
      cmds: seq<seq<string>>)
    requires p != [] && forall i :: 0 <= i < |p| ==> IsPlain(p[i])
    ensures Read(p + rest, Bare, w, words, cmds)
      == Read(rest, Bare, Some((if w.Some? then w.value else []) + p), words, cmds)
    decreases |p|
  {
    hide Read;
    assert p + rest == [p[0]] + (p[1..] + rest);
    PlainStep(p[0], p[1..] + rest, w, words, cmds);
    var before := if w.Some? then w.value else [];
    if |p| == 1 {
      assert p[1..] + rest == rest && before + p == before + [p[0]];
    } else {
      PlainReads(p[1..], rest, Grown(w, p[0]), words, cmds);
      assert before + p == before + [p[0]] + p[1..];
    }
  }

  lemma SpaceReads(rest: string, w: string, words: seq<string>, cmds: seq<seq<string>>)
    ensures Read(" " + rest, Bare, Some(w), words, cmds) == Read(rest, Bare, None, words + [w], cmds)
  {
    Cons(' ', rest);
  }

  lemma {:induction false} JoinedReads(args: seq<string>, words: seq<string>)
    requires args != []
    ensures Read(Joined(args), Bare, None, words, []) == Some([words + args])
    decreases |args|
  {
    hide Read, Quoted;
    if |args| == 1 {
      assert Quoted(args[0]) + "" == Joined(args);
      QuotedReads(args[0], "", words, []);
      EndReads(args[0], words, []);
      assert words + [args[0]] == words + args;
      assert [] + [words + args] == [words + args];
    } else {
      var tail := Joined(args[1..]);
      assert Joined(args) == Quoted(args[0]) + (" " + tail);
      QuotedReads(args[0], " " + tail, words, []);
      SpaceReads(tail, args[0], words, []);
      JoinedReads(args[1..], words + [args[0]]);
      assert words + [args[0]] + args[1..] == words + args;
    }
  }

  lemma PrefixReads(rest: string)
    ensures Read("sudo -n docker" + rest, Bare, None, [], []) == Read(rest, Bare, Some("docker"), ["sudo", "-n"], [])
  {
    hide Read;
    var s1, s2 := " -n docker" + rest, " docker" + rest;
    assert "sudo -n docker" + rest == "sudo" + s1 && s1 == " " + ("-n" + s2) && s2 == " " + ("docker" + rest);
    PlainReads("sudo", s1, None, [], []);
    SpaceReads("-n" + s2, "sudo", [], []);
    PlainReads("-n", s2, None, ["sudo"], []);
    SpaceReads("docker" + rest, "-n", ["sudo"], []);
    assert ["sudo"] + ["-n"] == ["sudo", "-n"] && [] + ["sudo"] == ["sudo"];
    PlainReads("docker", rest, None, ["sudo", "-n"], []);
    assert [] + "sudo" == "sudo" && [] + "-n" == "-n" && [] + "docker" == "docker";
  }

  lemma EndReads(w: string, words: seq<string>, cmds: seq<seq<string>>)
    ensures Read("", Bare, Some(w), words, cmds) == Some(cmds + [words + [w]])
  {
  }

  /** For every argument list, quotes, blanks, newlines and empty strings included, the shell reads
      the command line as one command: `sudo -n docker`, and then exactly the arguments. */
  lemma DockerCommandReads(args: seq<string>)
    ensures ReadLine(DockerCommand(args)) == Some([["sudo", "-n", "docker"] + args])
  {
    hide Read;
    var start, all := ["sudo", "-n"], ["sudo", "-n", "docker"];
    assert start + ["docker"] == all;
    if args == [] {
      assert "sudo -n docker" + "" == DockerCommand(args);
      PrefixReads("");
      EndReads("docker", start, []);
      assert all + args == all && [] + [all] == [all];
    } else {
      var tail := Joined(args);
      assert DockerCommand(args) == "sudo -n docker" + (" " + tail);
      PrefixReads(" " + tail);
      SpaceReads(tail, "docker", start, []);
      JoinedReads(args, all);
    }
  }

  lemma AndReads(rest: string, w: string, words: seq<string>)
    ensures Read(" && " + rest, Bare, Some(w), words, []) == Read(rest, Bare, None, [], [words + [w]])
  {
    var s1, s2 := "&& " + rest, " " + rest;
    assert (" && " + rest)[1..] == s1 && s1[2..] == s2 && s2[1..] == rest && "&&" <= s1;
    assert Read(" && " + rest, Bare, Some(w), words, []) == Read(s1, Bare, None, words + [w], []);
    assert [] + [words + [w]] == [words + [w]];
    assert Read(s1, Bare, None, words + [w], []) == Read(s2, Bare, None, [], [words + [w]]);
  }

  /** The authorization check tests and then prints exactly the file it is given. */
  lemma AuthorizationCheckReads(marker: string)
    ensures ReadLine(AuthorizationCheck(marker)) == Some([["test", "-f", marker], ["cat", marker]])
  {
    hide Read;
    var s3 := "cat " + Quoted(marker);
    var s2 := Quoted(marker) + (" && " + s3);
    assert AuthorizationCheck(marker) == "test" + (" " + ("-f" + (" " + s2)));
    TestReads(s2);
    QuotedReads(marker, " && " + s3, ["test", "-f"], []);
    AndReads(s3, marker, ["test", "-f"]);
    assert ["test", "-f"] + [marker] == ["test", "-f", marker];
    CatReads(marker, [["test", "-f", marker]]);
    assert [["test", "-f", marker]] + [["cat", marker]] == [["test", "-f", marker], ["cat", marker]];
  }

  lemma TestReads(rest: string)
    ensures Read("test" + (" " + ("-f" + (" " + rest))), Bare, None, [], [])
      == Read(rest, Bare, None, ["test", "-f"], [])
  {
    hide Read;
    var s1 := "-f" + (" " + rest);
    PlainReads("test", " " + s1, None, [], []);
    SpaceReads(s1, "test", [], []);
    assert [] + "test" == "test" && [] + "-f" == "-f" && [] + ["test"] == ["test"]
      && ["test"] + ["-f"] == ["test", "-f"];
    PlainReads("-f", " " + rest, None, ["test"], []);
    SpaceReads(rest, "-f", ["test"], []);
  }

  lemma CatReads(marker: string, cmds: seq<seq<string>>)
    ensures Read("cat " + Quoted(marker), Bare, None, [], cmds) == Some(cmds + [["cat", marker]])
  {
    hide Read;
    var q := Quoted(marker);
    assert "cat " + q == "cat" + (" " + (q + ""));
    PlainReads("cat", " " + (q + ""), None, [], cmds);
    assert [] + "cat" == "cat" && [] + ["cat"] == ["cat"];
    SpaceReads(q + "", "cat", [], cmds);
    QuotedReads(marker, "", ["cat"], cmds);
    EndReads(marker, ["cat"], cmds);
    assert ["cat"] + [marker] == ["cat", marker];
  }
}
