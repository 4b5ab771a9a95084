/** The SQL scanners that compare function bodies modulo comments, whitespace and one salt
    (src/preflight.rs). */
module SqlNormalize {
  import opened Wrappers

  const Quote := '\''
  const PREFIX := "md5(table_name||'"
  const SUFFIX := "'||time_part::text)"
  const PLACEHOLDER := "<salt>"

  predicate IsSpace(c: char) { c == ' ' || c == '\t' || c == '\n' || c == '\r' || c == '\U{000C}' }

  // ---------------------------------------------------------- specification

  datatype Mode = Code | Literal | Comment

  /** The mode after one character that opens no comment. */
  function StepMode(c: char, mode: Mode): Mode {
    match mode
    case Code => if c == Quote then Literal else Code
    case Literal => if c == Quote then Code else Literal
    case Comment => if c == '\n' then Code else Comment
  }

  /** Two dashes in code open a comment. */
  predicate Opens(s: string, mode: Mode) { mode.Code? && |s| >= 2 && s[0] == '-' && s[1] == '-' }

  /** A comment loses everything but its line end. */
  function Emit(c: char, mode: Mode): string {
    if mode.Comment? && c != '\n' then "" else [c]
  }

  function StripFrom(s: string, mode: Mode): string
    decreases |s|
  {
    if s == "" then ""
    else if Opens(s, mode) then StripFrom(s[2..], Comment)
    else Emit(s[0], mode) + StripFrom(s[1..], StepMode(s[0], mode))
  }

  function Strip(sql: string): string { StripFrom(sql, Code) }

  function SqueezeFrom(s: string, inString: bool): string
    decreases |s|
  {
    if s == "" then ""
    else if s[0] == Quote then [Quote] + SqueezeFrom(s[1..], !inString)
    else if inString || !IsSpace(s[0]) then [s[0]] + SqueezeFrom(s[1..], inString)
    else SqueezeFrom(s[1..], inString)
  }

  function Squeeze(sql: string): string { SqueezeFrom(sql, false) }

  function Normal(sql: string): string { Squeeze(Strip(sql)) }

  predicate OccursAt(text: string, needle: string, at: nat) {
    at + |needle| <= |text| && text[at..at + |needle|] == needle
  }

  /** The first occurrence of `needle` at or after `from`. */
  function FindFrom(text: string, needle: string, from: nat): (at: Option<nat>)
    ensures at.Some? ==> from <= at.value && OccursAt(text, needle, at.value)
    ensures at.Some? ==> forall k :: from <= k < at.value ==> !OccursAt(text, needle, k)
    ensures at.None? ==> forall k :: from <= k ==> !OccursAt(text, needle, k)
    decreases |text| - from
  {
    if from + |needle| > |text| then None
    else if OccursAt(text, needle, from) then Some(from)
    else FindFrom(text, needle, from + 1)
  }

  function ReplaceSalt(normalized: string): Option<string> {
    var prefix := FindFrom(normalized, PREFIX, 0);
    if prefix.None? then None
    else
      var start := prefix.value + |PREFIX|;
      var suffix := FindFrom(normalized, SUFFIX, start);
      if suffix.None? then None
      else
        var salt := normalized[start..suffix.value];
        if salt == "" || Quote in salt then None
        else Some(normalized[..start] + PLACEHOLDER + normalized[suffix.value..])
  }

  function NormalizeTimestampBody(body: string): Option<string> { ReplaceSalt(Normal(body)) }

  // -------------------------------------------------------------- the scanners

  lemma {:induction false} StripAt(sql: string, i: nat)
    requires i < |sql|
    ensures StripFrom(sql[i..], Literal)
            == [sql[i]] + StripFrom(sql[i + 1..], if sql[i] == Quote then Code else Literal)
    ensures StripFrom(sql[i..], Comment)
            == if sql[i] == '\n' then "\n" + StripFrom(sql[i + 1..], Code) else StripFrom(sql[i + 1..], Comment)
    ensures sql[i] == Quote ==> StripFrom(sql[i..], Code) == [Quote] + StripFrom(sql[i + 1..], Literal)
    ensures sql[i] != Quote && !(sql[i] == '-' && i + 1 < |sql| && sql[i + 1] == '-') ==>
              StripFrom(sql[i..], Code) == [sql[i]] + StripFrom(sql[i + 1..], Code)
    ensures sql[i] == '-' && i + 1 < |sql| && sql[i + 1] == '-' ==>
              StripFrom(sql[i..], Code) == StripFrom(sql[i + 2..], Comment)
  {
    var rest := sql[i..];
    assert rest[1..] == sql[i + 1..];
    if i + 1 < |sql| { assert rest[2..] == sql[i + 2..]; }
  }

  /** `output` is what the text before `i` turns into; the scan stands at `i` in `mode`. */
  ghost predicate Scanned(sql: string, output: string, i: int, mode: Mode) {
    0 <= i <= |sql| && Strip(sql) == output + StripFrom(sql[i..], mode)
  }

  lemma Advance(sql: string, output: string, i: nat, mode: Mode, piece: string, j: nat, next: Mode)
    requires Scanned(sql, output, i, mode) && j <= |sql|
    requires StripFrom(sql[i..], mode) == piece + StripFrom(sql[j..], next)
    ensures Scanned(sql, output + piece, j, next)
  {
    assert output + (piece + StripFrom(sql[j..], next)) == output + piece + StripFrom(sql[j..], next);
  }

  function ModeOf(inString: bool): Mode { if inString then Literal else Code }

  lemma StepQuote(sql: string, output: string, i: nat, inString: bool)
    requires i < |sql| && sql[i] == Quote && Scanned(sql, output, i, ModeOf(inString))
    ensures Scanned(sql, output + [sql[i]], i + 1, ModeOf(!inString))
  {
    StripAt(sql, i);
    Advance(sql, output, i, ModeOf(inString), [sql[i]], i + 1, ModeOf(!inString));
  }

  lemma StepOther(sql: string, output: string, i: nat, inString: bool)
    requires i < |sql| && sql[i] != Quote && Scanned(sql, output, i, ModeOf(inString))
    requires inString || !(sql[i] == '-' && i + 1 < |sql| && sql[i + 1] == '-')
    ensures Scanned(sql, output + [sql[i]], i + 1, ModeOf(inString))
  {
    StripAt(sql, i);
    Advance(sql, output, i, ModeOf(inString), [sql[i]], i + 1, ModeOf(inString));
  }

  method StripSqlLineComments(sql: string) returns (output: string)
    ensures output == Strip(sql)
  {
    output := "";
    var i := 0;
    var inString := false;
    assert sql[0..] == sql;
    while i < |sql|
      invariant Scanned(sql, output, i, ModeOf(inString))
    {
      var character := sql[i];
      if character == Quote {
        StepQuote(sql, output, i, inString);
        output := output + [character];
        i := i + 1;
        if inString && i < |sql| && sql[i] == Quote {
          StepQuote(sql, output, i, false);
          output := output + [sql[i]];
          i := i + 1;
        } else {
          inString := !inString;
        }
      } else if !inString && character == '-' && i + 1 < |sql| && sql[i + 1] == '-' {
        StripAt(sql, i);
        var newline, next := SkipComment(sql, i + 2);
        Advance(sql, output, i, Code, newline, next, Code);
        i := next;
        output := output + newline;
      } else {
        StepOther(sql, output, i, inString);
        output := output + [character];
        i := i + 1;
      }
    }
    assert sql[i..] == "";
  }

  /** The comment's characters up to its line end, which is kept. */
  method SkipComment(sql: string, start: nat) returns (newline: string, next: nat)
    requires start <= |sql|
    ensures start <= next <= |sql|
    ensures StripFrom(sql[start..], Comment) == newline + StripFrom(sql[next..], Code)
  {
    next := start;
    while next < |sql|
      invariant start <= next <= |sql|
      invariant StripFrom(sql[start..], Comment) == StripFrom(sql[next..], Comment)
    {
      StripAt(sql, next);
      next := next + 1;
      if sql[next - 1] == '\n' { return "\n", next; }
    }
    return "", next;
  }

  ghost predicate Squeezed(sql: string, output: string, i: int, inString: bool) {
    0 <= i <= |sql| && Squeeze(sql) == output + SqueezeFrom(sql[i..], inString)
  }

  lemma SqueezeStep(sql: string, output: string, i: nat, inString: bool)
    requires i < |sql| && Squeezed(sql, output, i, inString)
    ensures Squeezed(
              sql, output + (if sql[i] == Quote || inString || !IsSpace(sql[i]) then [sql[i]] else ""), i + 1,
              if sql[i] == Quote then !inString else inString)
  {
    assert sql[i..][1..] == sql[i + 1..];
  }

  method RemoveSqlWhitespace(sql: string) returns (output: string)
    ensures output == Squeeze(sql)
  {
    output := "";
    var i := 0;
    var inString := false;
    assert sql[0..] == sql;
    while i < |sql|
      invariant Squeezed(sql, output, i, inString)
    {
      SqueezeStep(sql, output, i, inString);
      var character := sql[i];
      i := i + 1;
      if character == Quote {
        output := output + [character];
        if inString && i < |sql| && sql[i] == Quote {
          SqueezeStep(sql, output, i, false);
          output := output + [sql[i]];
          i := i + 1;
        } else {
          inString := !inString;
        }
      } else if inString || !IsSpace(character) {
        output := output + [character];
      } else {
        assert output + "" == output;
      }
    }
    assert sql[i..] == "";
  }

  method NormalizeBody(body: string) returns (r: Option<string>)
    ensures r == NormalizeTimestampBody(body)
  {
    var withoutComments := StripSqlLineComments(body);
    var normalized := RemoveSqlWhitespace(withoutComments);
    var prefix := FindFrom(normalized, PREFIX, 0);
    if prefix.None? { return None; }
    var start := prefix.value + |PREFIX|;
    var suffix := FindFrom(normalized, SUFFIX, start);
    if suffix.None? { return None; }
    var end := suffix.value;
    if start == end || Quote in normalized[start..end] { return None; }
    normalized := normalized[..start] + PLACEHOLDER + normalized[end..];
    return Some(normalized);
  }

  // ------------------------------------------------- what whitespace removal keeps

  function Quotes(s: string): nat {
    if s == "" then 0 else (if s[|s| - 1] == Quote then 1 else 0) + Quotes(s[..|s| - 1])
  }

  /** A character stays when it is a quote, not a space, or behind an odd number of quotes. */
  predicate Stays(s: string, i: nat)
    requires i < |s|
  {
    s[i] == Quote || s[i] !in " \t\n\r\U{000C}" || Quotes(s[..i]) % 2 == 1
  }

  function Kept(s: string): string
    decreases |s|
  {
    if s == "" then ""
    else if Stays(s, |s| - 1) then Kept(s[..|s| - 1]) + [s[|s| - 1]]
    else Kept(s[..|s| - 1])
  }

  lemma {:induction false} SqueezeSplits(u: string, v: string, inString: bool)
    ensures SqueezeFrom(u + v, inString)
            == SqueezeFrom(u, inString) + SqueezeFrom(v, inString != (Quotes(u) % 2 == 1))
    decreases |u|
  {
    if u == "" {
      assert u + v == v;
    } else {
      assert (u + v)[1..] == u[1..] + v;
      QuotesFirst(u);
      SqueezeSplits(u[1..], v, if u[0] == Quote then !inString else inString);
    }
  }

  lemma {:induction false} QuotesFirst(u: string)
    requires u != ""
    ensures Quotes(u) == Quotes(u[1..]) + if u[0] == Quote then 1 else 0
    decreases |u|
  {
    if |u| > 1 {
      var front := u[..|u| - 1];
      QuotesFirst(front);
      assert front[1..] == u[1..][..|u| - 2];
      assert u[1..][|u| - 2] == u[|u| - 1];
    }
  }

  /** The lookahead scanner keeps exactly the characters the parity of quotes says it should. */
  lemma {:induction false} SqueezeKeeps(s: string)
    ensures Squeeze(s) == Kept(s)
    decreases |s|
  {
    if s != "" {
      var front, last := s[..|s| - 1], s[|s| - 1];
      assert s == front + [last];
      SqueezeKeeps(front);
      SqueezeSplits(front, [last], false);
      assert [last][1..] == "";
    }
  }

  lemma {:induction false} SqueezeTwice(s: string, inString: bool)
    ensures SqueezeFrom(SqueezeFrom(s, inString), inString) == SqueezeFrom(s, inString)
    decreases |s|
  {
    if s != "" {
      var next := if s[0] == Quote then !inString else inString;
      SqueezeTwice(s[1..], next);
      if s[0] == Quote || inString || !IsSpace(s[0]) {
        assert ([s[0]] + SqueezeFrom(s[1..], next))[1..] == SqueezeFrom(s[1..], next);
      }
    }
  }

  // ------------------------------------------------------------------ literals

  /** The literals of scanned text, each between its quotes. */
  function Literals(s: string, mode: Mode): string
    decreases |s|
  {
    if s == "" then ""
    else if Opens(s, mode) then Literals(s[2..], Comment)
    else
      (if mode.Literal? || (mode.Code? && s[0] == Quote) then [s[0]] else "")
      + Literals(s[1..], StepMode(s[0], mode))
  }

  /** The same where nothing is a comment any more. */
  function Quoted(s: string, inString: bool): string
    decreases |s|
  {
    if s == "" then ""
    else if s[0] == Quote then [Quote] + Quoted(s[1..], !inString)
    else if inString then [s[0]] + Quoted(s[1..], inString)
    else Quoted(s[1..], inString)
  }

  lemma {:induction false} StripKeepsLiterals(s: string, mode: Mode)
    ensures Quoted(StripFrom(s, mode), mode.Literal?) == Literals(s, mode)
    decreases |s|
  {
    if s != "" {
      if Opens(s, mode) {
        StripKeepsLiterals(s[2..], Comment);
      } else {
        var next := StepMode(s[0], mode);
        var rest := StripFrom(s[1..], next);
        StripKeepsLiterals(s[1..], next);
        if Emit(s[0], mode) == "" {
          assert "" + rest == rest && "" + Literals(s[1..], next) == Literals(s[1..], next);
        } else {
          assert ([s[0]] + rest)[1..] == rest;
        }
      }
    }
  }

  lemma {:induction false} SqueezeKeepsLiterals(s: string, inString: bool)
    ensures Quoted(SqueezeFrom(s, inString), inString) == Quoted(s, inString)
    decreases |s|
  {
    if s != "" {
      var next := if s[0] == Quote then !inString else inString;
      SqueezeKeepsLiterals(s[1..], next);
      assert ([s[0]] + SqueezeFrom(s[1..], next))[1..] == SqueezeFrom(s[1..], next);
    }
  }

  /** Neither scanner touches a literal. */
  lemma NormalKeepsLiterals(sql: string)
    ensures Quoted(Normal(sql), false) == Literals(sql, Code)
  {
    StripKeepsLiterals(sql, Code);
    SqueezeKeepsLiterals(Strip(sql), false);
  }

  // --------------------------------------------------------------- composition

  /** Where the scanner stands behind `s`. */
  function After(s: string, mode: Mode): Mode
    decreases |s|
  {
    if s == "" then mode
    else if Opens(s, mode) then After(s[2..], Comment)
    else After(s[1..], StepMode(s[0], mode))
  }

  /** No comment opens across the seam. */
  predicate CleanSeam(u: string, v: string) {
    !(u != "" && v != "" && u[|u| - 1] == '-' && v[0] == '-')
  }

  lemma {:induction false} StripSplits(u: string, v: string, mode: Mode)
    requires CleanSeam(u, v)
    ensures StripFrom(u + v, mode) == StripFrom(u, mode) + StripFrom(v, After(u, mode))
    decreases |u|
  {
    if u == "" {
      assert u + v == v;
    } else if Opens(u, mode) {
      assert (u + v)[2..] == u[2..] + v;
      StripSplits(u[2..], v, Comment);
    } else {
      assert (u + v)[1..] == u[1..] + v;
      assert !Opens(u + v, mode);
      var next := StepMode(u[0], mode);
      StripSplits(u[1..], v, next);
      assert (u + v)[0] == u[0];
      assert After(u, mode) == After(u[1..], next);
      JoinAfter(Emit(u[0], mode), StripFrom(u[1..], next), StripFrom(v, After(u, mode)));
    }
  }

  lemma JoinAfter(a: string, b: string, c: string)
    ensures a + (b + c) == a + b + c
  {
  }

  lemma {:induction false} QuotesOfEmit(c: char, mode: Mode, rest: string)
    ensures Quotes(Emit(c, mode) + rest) == Quotes(rest) + if c == Quote && !mode.Comment? then 1 else 0
  {
    if Emit(c, mode) == "" {
      assert "" + rest == rest;
    } else {
      QuotesFirst([c] + rest);
      assert ([c] + rest)[1..] == rest;
    }
  }

  lemma {:induction false} StripParity(s: string, mode: Mode)
    ensures Quotes(StripFrom(s, mode)) % 2 == 1 <==> mode.Literal? != After(s, mode).Literal?
    decreases |s|
  {
    if s != "" {
      if Opens(s, mode) {
        StripParity(s[2..], Comment);
      } else {
        StripParity(s[1..], StepMode(s[0], mode));
        QuotesOfEmit(s[0], mode, StripFrom(s[1..], StepMode(s[0], mode)));
      }
    }
  }

  lemma {:induction false} NormalSplits(u: string, v: string)
    requires After(u, Code) == Code && CleanSeam(u, v)
    ensures Normal(u + v) == Normal(u) + Normal(v)
  {
    StripSplits(u, v, Code);
    StripParity(u, Code);
    SqueezeSplits(Strip(u), Strip(v), false);
  }

  predicate Blank(w: string) { forall i :: 0 <= i < |w| ==> w[i] in " \t\n\r\U{000C}" }

  lemma {:induction false} BlankVanishes(w: string)
    requires Blank(w)
    ensures Normal(w) == "" && After(w, Code) == Code
    decreases |w|
  {
    if w != "" {
      BlankVanishes(w[1..]);
      assert ([w[0]] + Strip(w[1..]))[1..] == Strip(w[1..]);
    }
  }

  lemma {:induction false} CommentBody(c: string)
    requires '\n' !in c
    ensures StripFrom(c + "\n", Comment) == "\n" && After(c + "\n", Comment) == Code
    decreases |c|
  {
    if c == "" {
      assert c + "\n" == "\n";
      assert "\n"[1..] == "";
    } else {
      assert (c + "\n")[1..] == c[1..] + "\n";
      CommentBody(c[1..]);
    }
  }

  lemma {:induction false} CommentVanishes(c: string)
    requires '\n' !in c
    ensures Normal("--" + c + "\n") == "" && After("--" + c + "\n", Code) == Code
  {
    CommentBody(c);
    var whole := "--" + c + "\n";
    assert whole[2..] == c + "\n";
    assert "\n"[1..] == "";
  }

  /** White space between two tokens changes nothing, unless it parts two dashes. */
  lemma {:induction false} WhitespaceIsIgnored(u: string, w: string, v: string)
    requires After(u, Code) == Code && Blank(w) && CleanSeam(u, v)
    ensures NormalizeTimestampBody(u + w + v) == NormalizeTimestampBody(u + v)
  {
    if w == "" {
      assert u + w + v == u + v;
    } else {
      NormalWithBlank(u, w, v);
      NormalSplits(u, v);
    }
  }

  lemma {:induction false} NormalWithBlank(u: string, w: string, v: string)
    requires After(u, Code) == Code && Blank(w) && w != ""
    ensures Normal(u + w + v) == Normal(u) + Normal(v)
  {
    assert IsSpace(w[0]) && IsSpace(w[|w| - 1]);
    assert u + w + v == u + (w + v);
    NormalSplits(u, w + v);
    BlankVanishes(w);
    NormalSplits(w, v);
  }

  /** Nor does a line comment that is not glued to a dash. */
  lemma {:induction false} CommentsAreIgnored(u: string, c: string, v: string)
    requires After(u, Code) == Code && '\n' !in c && (u == "" || u[|u| - 1] != '-')
    ensures NormalizeTimestampBody(u + ("--" + c + "\n") + v) == NormalizeTimestampBody(u + v)
  {
    var comment := "--" + c + "\n";
    CommentVanishes(c);
    NormalWithComment(u, comment, v);
    NormalSplits(u, v);
  }

  lemma {:induction false} NormalWithComment(u: string, comment: string, v: string)
    requires After(u, Code) == Code && (u == "" || u[|u| - 1] != '-')
    requires comment != "" && comment[|comment| - 1] == '\n'
    requires Normal(comment) == "" && After(comment, Code) == Code
    ensures Normal(u + comment + v) == Normal(u) + Normal(v)
  {
    assert u + comment + v == u + (comment + v);
    NormalSplits(u, comment + v);
    NormalSplits(comment, v);
  }

  // ------------------------------------------------- what comment stripping keeps

  /** No two dashes stand side by side. */
  predicate Dashless(s: string) { forall i :: 0 < i < |s| ==> !(s[i - 1] == '-' && s[i] == '-') }

  lemma DashlessRest(s: string)
    requires Dashless(s) && s != ""
    ensures Dashless(s[1..]) && !Opens(s, Code)
  {
    forall i | 0 < i < |s[1..]| ensures !(s[1..][i - 1] == '-' && s[1..][i] == '-') {
      assert !(s[i] == '-' && s[i + 1] == '-');
    }
    if |s| >= 2 { assert !(s[0] == '-' && s[1] == '-'); }
  }

  lemma KeptStep(s: string, inString: bool)
    requires s != "" && !Opens(s, ModeOf(inString))
    ensures var next := if s[0] == Quote then !inString else inString;
            && StripFrom(s, ModeOf(inString)) == [s[0]] + StripFrom(s[1..], ModeOf(next))
            && After(s, ModeOf(inString)) == After(s[1..], ModeOf(next))
  {
  }

  /** Text in which no comment can open stays as it is, and is inside a literal behind an odd number
      of quotes. */
  lemma {:induction false} DashlessIsKept(s: string, inString: bool)
    requires Dashless(s)
    ensures StripFrom(s, ModeOf(inString)) == s
    ensures After(s, ModeOf(inString)) == ModeOf(inString != (Quotes(s) % 2 == 1))
    decreases |s|
  {
    if s != "" {
      DashlessRest(s);
      KeptStep(s, inString);
      QuotesFirst(s);
      hide Dashless, StripFrom, After, Quotes;
      DashlessIsKept(s[1..], if s[0] == Quote then !inString else inString);
      assert [s[0]] + s[1..] == s;
    }
  }

  lemma CommentAlone(c: string)
    requires '\n' !in c
    ensures Strip("--" + c + "\n") == "\n" && After("--" + c + "\n", Code) == Code
    ensures Strip("--" + c) == ""
  {
    CommentBody(c);
    OpenComment(c);
    assert ("--" + c + "\n")[2..] == c + "\n" && ("--" + c)[2..] == c;
  }

  lemma StripsBetween(u: string, piece: string, v: string)
    requires After(u, Code) == Code && After(piece, Code) == Code && piece != ""
    requires CleanSeam(u, piece) && CleanSeam(piece, v)
    ensures Strip(u + piece + v) == Strip(u) + Strip(piece) + Strip(v)
  {
    hide StripFrom, After;
    StripSplits(piece, v, Code);
    assert (piece + v)[0] == piece[0];
    StripSplits(u, piece + v, Code);
    assert u + piece + v == u + (piece + v);
    JoinAfter(Strip(u), Strip(piece), Strip(v));
  }

  /** Of a line comment only the line end stays. */
  lemma CommentIsStripped(u: string, c: string, v: string)
    requires After(u, Code) == Code && '\n' !in c && (u == "" || u[|u| - 1] != '-')
    ensures Strip(u + ("--" + c + "\n") + v) == Strip(u) + "\n" + Strip(v)
    ensures Strip(u + ("--" + c)) == Strip(u)
  {
    hide StripFrom, After;
    CommentAlone(c);
    StripsBetween(u, "--" + c + "\n", v);
    StripSplits(u, "--" + c, Code);
    assert Strip(u) + "" == Strip(u);
  }

  lemma {:induction false} OpenComment(c: string)
    requires '\n' !in c
    ensures StripFrom(c, Comment) == ""
    decreases |c|
  {
    if c != "" { OpenComment(c[1..]); }
  }

  /** Dashes inside a literal open no comment. */
  lemma LiteralIsNotStripped(u: string, s: string, v: string)
    requires After(u, Code) == Code && Quote !in s
    ensures Strip(u + ([Quote] + s + [Quote]) + v) == Strip(u) + ([Quote] + s + [Quote]) + Strip(v)
  {
    var literal := [Quote] + s + [Quote];
    assert literal[1..] == s + [Quote];
    LiteralBody(s);
    assert Strip(literal) == literal && After(literal, Code) == Code;
    StripsBetween(u, literal, v);
  }

  // -------------------------------------------------------------------- salts

  lemma {:induction false} LiteralBody(salt: string)
    requires Quote !in salt
    ensures StripFrom(salt + [Quote], Literal) == salt + [Quote] && After(salt + [Quote], Literal) == Code
    ensures SqueezeFrom(salt + [Quote], true) == salt + [Quote]
    decreases |salt|
  {
    if salt == "" {
      assert salt + [Quote] == [Quote];
      assert [Quote][1..] == "";
    } else {
      assert (salt + [Quote])[1..] == salt[1..] + [Quote];
      LiteralBody(salt[1..]);
      assert [salt[0]] + (salt[1..] + [Quote]) == salt + [Quote];
    }
  }

  lemma {:induction false} LiteralIsKept(salt: string)
    requires Quote !in salt
    ensures Normal([Quote] + salt + [Quote]) == [Quote] + salt + [Quote]
    ensures After([Quote] + salt + [Quote], Code) == Code
  {
    var text := [Quote] + salt + [Quote];
    assert text[1..] == salt + [Quote];
    LiteralBody(salt);
  }

  /** `head` ends with the first occurrence of the prefix. */
  predicate EndsWithFirstPrefix(head: string) {
    |head| >= |PREFIX| && FindFrom(head, PREFIX, 0) == Some(|head| - |PREFIX|)
  }

  lemma OccursInFront(head: string, rest: string, needle: string, k: nat)
    requires k + |needle| <= |head|
    ensures OccursAt(head + rest, needle, k) <==> OccursAt(head, needle, k)
  {
    assert (head + rest)[k..k + |needle|] == head[k..k + |needle|];
  }

  lemma PrefixFound(head: string, rest: string)
    requires EndsWithFirstPrefix(head)
    ensures FindFrom(head + rest, PREFIX, 0) == Some(|head| - |PREFIX|)
  {
    hide FindFrom;
    forall k: nat | k + |PREFIX| <= |head|
      ensures OccursAt(head + rest, PREFIX, k) <==> OccursAt(head, PREFIX, k)
    {
      OccursInFront(head, rest, PREFIX, k);
    }
    assert OccursAt(head + rest, PREFIX, |head| - |PREFIX|);
  }

  lemma SuffixOpens()
    ensures |SUFFIX| == 19 && SUFFIX[0] == Quote
  {
  }

  lemma SuffixFound(head: string, salt: string, tail: string)
    requires Quote !in salt && SUFFIX <= tail
    ensures FindFrom(head + salt + tail, SUFFIX, |head|) == Some(|head| + |salt|)
  {
    hide FindFrom;
    var text, at := head + salt + tail, |head| + |salt|;
    SuffixOpens();
    assert tail[..|SUFFIX|] == SUFFIX && text[at..] == tail;
    assert text[at..at + |SUFFIX|] == SUFFIX;
    assert OccursAt(text, SUFFIX, at);
    forall k | |head| <= k < at ensures !OccursAt(text, SUFFIX, k) {
      assert text[k] == salt[k - |head|];
      assert k + |SUFFIX| <= |text| ==> text[k..k + |SUFFIX|][0] == text[k];
    }
  }

  lemma SaltReplaced(head: string, salt: string, tail: string)
    requires EndsWithFirstPrefix(head) && salt != "" && Quote !in salt && SUFFIX <= tail
    ensures ReplaceSalt(head + salt + tail) == Some(head + PLACEHOLDER + tail)
  {
    var text, end := head + salt + tail, |head| + |salt|;
    assert head + salt + tail == head + (salt + tail);
    PrefixFound(head, salt + tail);
    SuffixFound(head, salt, tail);
    assert text[|head|..end] == salt && text[..|head|] == head && text[end..] == tail;
  }

  /** The only texts that pass are those with a nonempty, quote-free salt in its place. */
  lemma SaltIsThere(text: string) returns (head: string, salt: string, tail: string)
    requires ReplaceSalt(text).Some?
    ensures text == head + salt + tail && ReplaceSalt(text) == Some(head + PLACEHOLDER + tail)
    ensures EndsWithFirstPrefix(head) && salt != "" && Quote !in salt && SUFFIX <= tail
  {
    var at := FindFrom(text, PREFIX, 0).value;
    var start := at + |PREFIX|;
    var end := FindFrom(text, SUFFIX, start).value;
    head, salt, tail := text[..start], text[start..end], text[end..];
    assert text == head + text[start..];
    forall k: nat | k + |PREFIX| <= |head|
      ensures OccursAt(text, PREFIX, k) <==> OccursAt(head, PREFIX, k)
    {
      OccursInFront(head, text[start..], PREFIX, k);
    }
    assert OccursAt(head, PREFIX, at);
    assert tail[..|SUFFIX|] == SUFFIX;
  }

  /** The text is the given head and tail around an acceptable salt. */
  predicate Salted(text: string, head: string, salt: string, tail: string) {
    text == head + salt + tail && salt != "" && Quote !in salt
  }

  /** Two stripped texts agree apart from their salts. */
  ghost predicate SaltVariants(x: string, y: string) {
    exists head, s, t, tail :: Salted(x, head, s, tail) && Salted(y, head, t, tail)
      && EndsWithFirstPrefix(head) && SUFFIX <= tail
  }

  /** Of two function bodies the first of which is accepted, both give the same result exactly when,
      without comments and blanks, they differ at most in the salt. */
  lemma OnlySaltsDiffer(x: string, y: string)
    requires NormalizeTimestampBody(x).Some?
    ensures NormalizeTimestampBody(x) == NormalizeTimestampBody(y) <==> SaltVariants(Normal(x), Normal(y))
  {
    if NormalizeTimestampBody(x) == NormalizeTimestampBody(y) {
      var h1, s1, t1 := SaltIsThere(Normal(x));
      var h2, s2, t2 := SaltIsThere(Normal(y));
      HeadsAgree(h1, t1, h2, t2);
      assert Salted(Normal(x), h1, s1, t1) && Salted(Normal(y), h1, s2, t1);
    }
    if SaltVariants(Normal(x), Normal(y)) {
      var head, s, t, tail :| Salted(Normal(x), head, s, tail) && Salted(Normal(y), head, t, tail)
        && EndsWithFirstPrefix(head) && SUFFIX <= tail;
      SaltReplaced(head, s, tail);
      SaltReplaced(head, t, tail);
    }
  }

  lemma HeadsAgree(h1: string, t1: string, h2: string, t2: string)
    requires EndsWithFirstPrefix(h1) && EndsWithFirstPrefix(h2)
    requires h1 + PLACEHOLDER + t1 == h2 + PLACEHOLDER + t2
    ensures h1 == h2 && t1 == t2
  {
    JoinAfter(h1, PLACEHOLDER, t1);
    JoinAfter(h2, PLACEHOLDER, t2);
    PrefixFound(h1, PLACEHOLDER + t1);
    PrefixFound(h2, PLACEHOLDER + t2);
    SameSplit(h1, PLACEHOLDER + t1, h2, PLACEHOLDER + t2);
    SameSplit(PLACEHOLDER, t1, PLACEHOLDER, t2);
  }

  lemma SameSplit(a: string, x: string, b: string, y: string)
    requires |a| == |b| && a + x == b + y
    ensures a == b && x == y
  {
    assert a == (a + x)[..|a|] && x == (a + x)[|a|..];
    assert b == (b + y)[..|b|] && y == (b + y)[|b|..];
  }

  /** Swapping the salt literal in the source text, whatever surrounds it, gives the same result. */
  lemma {:induction false} SaltsAreInterchangeable(u: string, s: string, t: string, v: string)
    requires After(u, Code) == Code
    requires s != "" && t != "" && Quote !in s && Quote !in t
    requires EndsWithFirstPrefix(Normal(u) + [Quote]) && SUFFIX <= [Quote] + Normal(v)
    ensures NormalizeTimestampBody(u + ([Quote] + s + [Quote]) + v).Some?
    ensures NormalizeTimestampBody(u + ([Quote] + s + [Quote]) + v)
            == NormalizeTimestampBody(u + ([Quote] + t + [Quote]) + v)
  {
    SaltInPlace(u, s, v);
    SaltInPlace(u, t, v);
  }

  lemma {:induction false} SaltInPlace(u: string, s: string, v: string)
    requires After(u, Code) == Code && s != "" && Quote !in s
    requires EndsWithFirstPrefix(Normal(u) + [Quote]) && SUFFIX <= [Quote] + Normal(v)
    ensures NormalizeTimestampBody(u + ([Quote] + s + [Quote]) + v)
            == Some(Normal(u) + [Quote] + PLACEHOLDER + ([Quote] + Normal(v)))
  {
    var salted := [Quote] + s + [Quote];
    assert salted[0] == Quote && salted[|salted| - 1] == Quote;
    assert u + salted + v == u + (salted + v);
    NormalSplits(u, salted + v);
    LiteralIsKept(s);
    NormalSplits(salted, v);
    assert Normal(u) + (salted + Normal(v)) == (Normal(u) + [Quote]) + s + ([Quote] + Normal(v));
    SaltReplaced(Normal(u) + [Quote], s, [Quote] + Normal(v));
  }
}
