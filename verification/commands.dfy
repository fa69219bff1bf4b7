/** The interactive loop's reading of one input line: strip it, then test,
    in order, for a blank line, `exit`, `list`, and the `status `, `query `
    and `analyze ` prefixes, case-insensitively; anything else is a
    free-form request. */
module Commands {

  import opened PyText

  datatype Command =
    | Skip                      // blank line: read the next one
    | Exit
    | List
    | Status(arg: string)       // job id
    | Query(arg: string)        // table name
    | Analyze(arg: string)      // table name
    | FreeForm(text: string)    // the stripped line, for the model if there is an agent

  predicate HasArgument(c: Command) {
    c.Status? || c.Query? || c.Analyze?
  }

  /** The lower-case prefix that selects a command taking an argument. */
  function Prefix(c: Command): (p: string)
    requires HasArgument(c)
    ensures |p| >= 6 && p[|p| - 1] == ' '
  {
    match c
    case Status(_) => "status "
    case Query(_) => "query "
    case Analyze(_) => "analyze "
  }

  /** The loop's dispatch on one raw input line. The slice offsets 7, 6
      and 8 are the lengths of the three prefixes. */
  function Classify(line: string): (c: Command)
    ensures c.Skip? <==> AllSpace(line)
    ensures HasArgument(c) ==> Trimmed(c.arg) && StartsWith(Lower(Strip(line)), Prefix(c))
    ensures c.FreeForm? ==> c.text == Strip(line) && c.text != [] && NoKeyword(Lower(c.text))
  {
    StripEmptyIff(line);
    var s := Strip(line);
    if s == [] then Skip
    else
      var l := Lower(s);
      if l == "exit" then Exit
      else if l == "list" then List
      else if StartsWith(l, "status ") then Status(Strip(s[7..]))
      else if StartsWith(l, "query ") then Query(Strip(s[6..]))
      else if StartsWith(l, "analyze ") then Analyze(Strip(s[8..]))
      else FreeForm(s)
  }

  /** None of the five keyword tests of the loop accepts the lower-cased
      line `l`. */
  predicate NoKeyword(l: string) {
    && l != "exit" && l != "list"
    && !StartsWith(l, "status ") && !StartsWith(l, "query ") && !StartsWith(l, "analyze ")
  }

  /** Each outcome of `Classify` characterised on its own. The keyword tests
      exclude one another, so each outcome holds exactly when its own test
      holds, whatever the order of the tests; `FreeForm` carries the stripped
      line unaltered. */
  lemma ClassifyCases(line: string)
    ensures var s := Strip(line); var l := Lower(s);
      && (Classify(line).Skip? <==> AllSpace(line))
      && (Classify(line).Exit? <==> l == "exit")
      && (Classify(line).List? <==> l == "list")
      && (Classify(line).Status? <==> StartsWith(l, "status "))
      && (Classify(line).Query? <==> StartsWith(l, "query "))
      && (Classify(line).Analyze? <==> StartsWith(l, "analyze "))
      && (Classify(line).FreeForm? <==> s != [] && NoKeyword(l))
      && (Classify(line).FreeForm? ==> Classify(line).text == s)
  {
    var s := Strip(line);
    var l := Lower(s);
    StripEmptyIff(line);
    if StartsWith(l, "status ") {
      assert l[0] == 's';
    }
    if StartsWith(l, "query ") {
      assert l[0] == 'q';
    }
    if StartsWith(l, "analyze ") {
      assert l[0] == 'a';
    }
  }

  /** A keyword on its own, without the space and argument its prefix needs,
      and `list` followed by anything, are free-form requests. */
  lemma BareKeywordIsFreeForm(line: string)
    requires var l := Lower(Strip(line));
             l == "status" || l == "query" || l == "analyze" || StartsWith(l, "list ")
    ensures Classify(line) == FreeForm(Strip(line))
  {
    var l := Lower(Strip(line));
    assert NoKeyword(l) by {
      if l == "status" {
        assert l[0] == 's';
      } else if l == "analyze" {
        assert l[0] == 'a';
      } else if l != "query" {
        assert l[0] == 'l';
      }
    }
    ClassifyCases(line);
  }

  /** In a line whose last character is not whitespace, only the empty
      suffix is all whitespace, and no prefix but a proper one is. */
  lemma LastNotSpace(rest: string, j: nat)
    requires j <= |rest| && rest != [] && !IsSpace(rest[|rest| - 1])
    ensures AllSpace(rest[j..]) ==> j == |rest|
    ensures AllSpace(rest[..j]) ==> j < |rest|
  {
    if j < |rest| {
      assert rest[j..][|rest| - 1 - j] == rest[|rest| - 1];
    } else {
      assert rest[..j][|rest| - 1] == rest[|rest| - 1];
    }
  }

  /** Stripping a line that does not end in whitespace only cuts at the
      front, and leaves something. */
  lemma StripKeepsEnd(rest: string)
    requires rest != [] && !IsSpace(rest[|rest| - 1])
    ensures var a := Strip(rest); var j := |rest| - |a|;
      a != [] && rest[j..] == a && AllSpace(rest[..j])
  {
    var a := Strip(rest);
    var i := StripStart(rest);
    StripFacts(rest);
    LastNotSpace(rest, i + |a|);
    LastNotSpace(rest, i);
  }

  /** A matched prefix ends in a space of the line itself. */
  lemma PrefixEndsInSpace(s: string, prefix: string)
    requires |prefix| >= 1 && prefix[|prefix| - 1] == ' '
    requires StartsWith(Lower(s), prefix)
    ensures IsSpace(s[|prefix| - 1])
  {
    var n := |prefix|;
    assert Lower(s)[n - 1] == ' ';
    LowerKeepsSpace(s[n - 1]);
  }

  /** What follows a matched prefix in a stripped line: a non-empty argument
      with no whitespace at its ends, which is the line's tail after the
      prefix and some whitespace. */
  lemma ArgumentAfterPrefix(s: string, prefix: string)
    requires s != [] && Trimmed(s)
    requires |prefix| >= 1 && prefix[|prefix| - 1] == ' '
    requires StartsWith(Lower(s), prefix)
    ensures |prefix| < |s|
    ensures var a := Strip(s[|prefix|..]); var k := |s| - |a|;
      && a != [] && Trimmed(a)
      && |prefix| <= k && s[k..] == a && AllSpace(s[|prefix|..k])
  {
    var n := |prefix|;
    PrefixEndsInSpace(s, prefix);
    assert n < |s|;
    var rest := s[n..];
    assert rest[|rest| - 1] == s[|s| - 1];
    StripKeepsEnd(rest);
    var j := |rest| - |Strip(rest)|;
    SliceOfSuffix(s, n, j);
  }

  /** The argument `Classify` hands on: for a command that takes one, the
      stripped line is the prefix in any letter case, then whitespace, then
      the argument, which is never empty and has no whitespace at its ends. */
  lemma ClassifyArgument(line: string)
    requires HasArgument(Classify(line))
    ensures var c := Classify(line); var s := Strip(line); var p := Prefix(c);
      var k := |s| - |c.arg|;
      && c.arg != [] && Trimmed(c.arg)
      && |p| <= k && Lower(s[..|p|]) == p && s[k..] == c.arg && AllSpace(s[|p|..k])
  {
    var c := Classify(line);
    var s := Strip(line);
    var p := Prefix(c);
    PrefixMatched(line);
    LowerPrefix(s, |p|);
    ArgumentAfterPrefix(s, p);
  }

  /** A command with an argument comes from a line whose stripped,
      lower-cased form starts with that command's prefix. */
  lemma PrefixMatched(line: string)
    requires HasArgument(Classify(line))
    ensures var c := Classify(line); var s := Strip(line);
      s != [] && StartsWith(Lower(s), Prefix(c)) && c.arg == Strip(s[|Prefix(c)|..])
  {
    ClassifyCases(line);
  }

  /** The commands `Classify` can produce: arguments and free-form text are
      non-empty and trimmed, and free-form text matches no keyword. */
  predicate WellFormed(c: Command) {
    match c
    case Status(a) => a != [] && Trimmed(a)
    case Query(a) => a != [] && Trimmed(a)
    case Analyze(a) => a != [] && Trimmed(a)
    case FreeForm(t) => t != [] && Trimmed(t) && NoKeyword(Lower(t))
    case _ => true
  }

  /** The canonical line for a command: lower-case keyword, one space, the
      argument. */
  function Render(c: Command): string {
    match c
    case Skip => ""
    case Exit => "exit"
    case List => "list"
    case FreeForm(t) => t
    case _ => Prefix(c) + c.arg
  }

  lemma ClassifyWellFormed(line: string)
    ensures WellFormed(Classify(line))
  {
    ClassifyCases(line);
    if HasArgument(Classify(line)) {
      ClassifyArgument(line);
    }
  }

  /** A line whose stripped, lower-cased form starts with a command's prefix
      is that command, with the stripped rest of the line as argument. */
  lemma ClassifyPrefixed(line: string, c: Command)
    requires HasArgument(c)
    requires StartsWith(Lower(Strip(line)), Prefix(c))
    ensures Classify(line) == c.(arg := Strip(Strip(line)[|Prefix(c)|..]))
  {
    var l := Lower(Strip(line));
    assert l[0] == Prefix(c)[0];
    ClassifyCases(line);
  }

  /** A keyword spelled in any case starts with a letter, not whitespace. */
  lemma LeadNotSpace(p: string, keyword: string)
    requires Lower(p) == keyword && keyword != [] && !IsSpace(keyword[0])
    ensures !IsSpace(p[0])
  {
    assert Lower(p)[0] == LowerChar(p[0]);
    LowerKeepsSpace(p[0]);
  }

  /** A keyword in any case, whitespace, then a trimmed argument: already
      stripped, matching the keyword's prefix, and giving back the argument
      when the part after the keyword is stripped. */
  lemma PrefixedCore(keyword: string, p: string, ws: string, a: string)
    requires |keyword| >= 1 && !IsSpace(keyword[0]) && Lower(p) == keyword
    requires AllSpace(ws) && a != [] && Trimmed(a)
    ensures var core := p + ws + a;
      Strip(core) == core && StartsWith(Lower(core), keyword) && Strip(core[|p|..]) == a
  {
    CoreTrimmed(keyword, p, ws, a);
    CoreStartsWith(keyword, p, ws + a);
    CoreArgument(p, ws, a);
  }

  lemma CoreTrimmed(keyword: string, p: string, ws: string, a: string)
    requires |keyword| >= 1 && !IsSpace(keyword[0]) && Lower(p) == keyword
    requires a != [] && Trimmed(a)
    ensures Strip(p + ws + a) == p + ws + a
  {
    var core := p + ws + a;
    LeadNotSpace(p, keyword);
    assert core[0] == p[0] && core[|core| - 1] == a[|a| - 1];
    StripTrimmed(core);
  }

  lemma CoreStartsWith(keyword: string, p: string, rest: string)
    requires Lower(p) == keyword
    ensures StartsWith(Lower(p + rest), keyword)
  {
    LowerAppend(p, rest);
  }

  lemma CoreArgument(p: string, ws: string, a: string)
    requires AllSpace(ws) && Trimmed(a)
    ensures Strip((p + ws + a)[|p|..]) == a
  {
    assert (p + ws + a)[|p|..] == ws + a + [];
    StripUnique(ws, a, []);
  }

  /** Any spelling of a command keyword, with any whitespace after it and
      around the whole line, selects that command with the argument intact. */
  lemma PrefixAnyCase(c: Command, p: string, ws: string, before: string, after: string)
    requires HasArgument(c) && c.arg != [] && Trimmed(c.arg)
    requires Lower(p) == Prefix(c)
    requires AllSpace(ws) && AllSpace(before) && AllSpace(after)
    ensures Classify(before + p + ws + c.arg + after) == c
  {
    var core := p + ws + c.arg;
    var line := before + p + ws + c.arg + after;
    assert line == before + core + after;
    StripAbsorbsSpace(before, core, after);
    PrefixedCore(Prefix(c), p, ws, c.arg);
    ClassifyPrefixed(line, c);
  }

  /** A line with no whitespace at either end is its own stripped form. */
  lemma StripTrimmed(s: string)
    requires Trimmed(s)
    ensures Strip(s) == s
  {
    assert [] + s + [] == s;
    StripUnique([], s, []);
  }

  /** A line without upper-case letters is its own lower-cased form. */
  lemma LowerNoUpper(s: string)
    requires forall i :: 0 <= i < |s| ==> !('A' <= s[i] <= 'Z')
    ensures Lower(s) == s
  {
  }

  /** A bare keyword already in lower case selects its command. */
  lemma ClassifyKeyword(w: string)
    requires w == "exit" || w == "list"
    ensures Classify(w) == if w == "exit" then Exit else List
  {
    assert w[0] != ' ' && w[3] == 't';
    assert Trimmed(w);
    StripTrimmed(w);
    LowerNoUpper(w);
  }

  /** The three lines that are a command without an argument. */
  lemma ClassifyBareCommands()
    ensures Classify("") == Skip && Classify("exit") == Exit && Classify("list") == List
  {
    StripEmptyIff("");
    ClassifyKeyword("exit");
    ClassifyKeyword("list");
  }

  /** Free-form text that matches no keyword is read back unaltered. */
  lemma ClassifyFreeForm(t: string)
    requires t != [] && Trimmed(t) && NoKeyword(Lower(t))
    ensures Classify(t) == FreeForm(t)
  {
    assert [] + t + [] == t;
    StripUnique([], t, []);
    ClassifyCases(t);
  }

  /** Rendering a well-formed command and reading it back gives the same
      command. */
  lemma ClassifyRender(c: Command)
    requires WellFormed(c)
    ensures Classify(Render(c)) == c
  {
    if HasArgument(c) {
      ClassifyRenderArgument(c);
    } else if c.FreeForm? {
      ClassifyFreeForm(c.text);
    } else {
      ClassifyBareCommands();
    }
  }

  lemma ClassifyRenderArgument(c: Command)
    requires HasArgument(c) && c.arg != [] && Trimmed(c.arg)
    ensures Classify(Prefix(c) + c.arg) == c
  {
    assert [] + Prefix(c) + [] + c.arg + [] == Prefix(c) + c.arg;
    PrefixAnyCase(c, Prefix(c), [], [], []);
  }

  /** Classification is canonical: the rendered form of what a line means
      means the same thing. */
  lemma ClassifyRenderClassify(line: string)
    ensures Classify(Render(Classify(line))) == Classify(line)
  {
    ClassifyWellFormed(line);
    ClassifyRender(Classify(line));
  }

  /** `STATUS job-42`: the upper-case keyword selects the status command. */
  lemma ClassifyStatusExample()
    ensures Classify("STATUS job-42") == Status("job-42")
  {
    var p, a := "STATUS ", "job-42";
    assert Trimmed(a) by {
      assert a[0] == 'j' && a[|a| - 1] == '2';
    }
    assert Lower(p) == "status " by {
      assert forall i :: 0 <= i < |p| ==> Lower(p)[i] == LowerChar(p[i]);
    }
    assert [] + p + [] + a + [] == "STATUS job-42";
    PrefixAnyCase(Status(a), p, [], [], []);
  }
}
