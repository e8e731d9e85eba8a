/** What the server's file receives when a FORMAT string is configured. */
module FormatOutput {
  import opened Bytes
  import opened Splitter
  import opened Wire
  import opened Server
  import Paths
  import FormParts

  /** The conversion renders the part list compiled from the quoted FORMAT value. */
  ghost predicate RendersFormat(cfg: Config, format: string, env: Line -> FormParts.Env) {
    && cfg.convert.Some? && !cfg.binary
    && forall l :: cfg.convert.value(l) == Some(FormParts.Render(FormParts.Compile("", Paths.StringContent(format)),
        env(l)))
  }

  /** Each line's FORMAT meaning in turn, up to the first line for which it is empty. */
  function Formatted(s: string, env: Line -> FormParts.Env, ls: seq<Line>): string {
    if ls == [] || FormParts.Direct(s, env(ls[0])) == "" then ""
    else Strip(FormParts.Direct(s, env(ls[0]))) + Formatted(s, env, ls[1..])
  }

  /** The FORMAT says just a NUL about each of the first two lines. */
  predicate BothNul(s: string, env: Line -> FormParts.Env, ls: seq<Line>) {
    |ls| >= 2 && FormParts.Direct(s, env(ls[0])) == "\0" == FormParts.Direct(s, env(ls[1]))
  }

  lemma FormatOfLine(cfg: Config, format: string, env: Line -> FormParts.Env, l: Line)
    requires RendersFormat(cfg, format, env) && ValidLine(l)
    ensures var text := FormParts.Direct(Paths.StringContent(format), env(l));
            && LineOutput(cfg, l) == (if text == "" then None else Some(Strip(text)))
            && (LineOutput(cfg, l) == Some("") <==> text == "\0")
  {
    var text := FormParts.Direct(Paths.StringContent(format), env(l));
    FormParts.CompileThenRender("", Paths.StringContent(format), env(l));
    assert "" + text == text;
    if text != "" {
      StripsToNothing(text);
    }
  }

  /** With a FORMAT string the file receives what the string itself says about each line, in order; an
      empty text for one line ends the output of the whole value. It is defined iff the string does not say
      just a NUL about each of the first two lines. */
  lemma {:induction false} FormattedOutput(cfg: Config, format: string, env: Line -> FormParts.Env, ls: seq<Line>)
    requires RendersFormat(cfg, format, env) && ValidLines(ls)
    ensures Stacked(cfg, ls) == Formatted(Paths.StringContent(format), env, ls)
    ensures FileOutput(cfg, ls) == if BothNul(Paths.StringContent(format), env, ls) then None
                                   else Some(Formatted(Paths.StringContent(format), env, ls))
  {
    var s := Paths.StringContent(format);
    if ls != [] {
      assert ValidLine(ls[0]);
      FormatOfLine(cfg, format, env, ls[0]);
      FormattedOutput(cfg, format, env, ls[1..]);
      if |ls| >= 2 {
        assert ValidLine(ls[1]);
        FormatOfLine(cfg, format, env, ls[1]);
      }
    }
  }

  /** FORMAT "\\x00" leaves the output of every value of two lines or more undefined. */
  lemma NulFormat(cfg: Config, env: Line -> FormParts.Env, ls: seq<Line>)
    requires RendersFormat(cfg, "\"\\x00\"", env) && ValidLines(ls) && |ls| >= 2
    ensures FileOutput(cfg, ls) == None
  {
    Paths.QuotedContent("\\x00");
    assert ['\"'] + "\\x00" + ['\"'] == "\"\\x00\"";
    FormattedOutput(cfg, "\"\\x00\"", env, ls);
    NulMeaning(env(ls[0]));
    NulMeaning(env(ls[1]));
  }

  lemma NulMeaning(e: FormParts.Env)
    ensures FormParts.Direct("\\x00", e) == "\0"
  {
    assert "\\x00"[2..] == "00" && "00"[2..] == "";
    assert FormParts.NextToken("\\x00") == FormParts.Text('\0', "");
    assert FormParts.Direct("", e) == "";
  }

  /** An input that loses output: FORMAT "%l" (the trimmed line) and a blank line before the line "x". */
  lemma BlankLineLosesOutput(cfg: Config, env: Line -> FormParts.Env, ls: seq<Line>)
    requires RendersFormat(cfg, "\"%l\"", env) && ValidLines(ls) && |ls| == 2 && ls[0].data == "\n\0"
              && ls[1].data == "x\n\0"
    requires forall l :: env(l).content == Some(CString(l.data))
    requires forall l :: env(l).trim("\n") == "" && env(l).trim("x\n") == "x"
    ensures Stacked(cfg, ls) == "" && Skipping(cfg, ls) == "x" && !NothingAfterFailure(cfg, ls)
  {
    Paths.QuotedContent("%l");
    assert ['\"'] + "%l" + ['\"'] == "\"%l\"";
    CStringOf("\n", "");
    CStringOf("x\n", "");
    assert "\n" + ['\0'] + "" == "\n\0" && "x\n" + ['\0'] + "" == "x\n\0";
    TrimmedText(cfg, env, ls[0]);
    TrimmedText(cfg, env, ls[1]);
    AllOutputIff(cfg, ls);
    assert Skipping(cfg, ls[1..]) == TextOf(cfg, ls[1]) + Skipping(cfg, ls[1..][1..]);
    assert "x" + "" == "x" && "" + "x" == "x";
  }

  lemma TrimmedText(cfg: Config, env: Line -> FormParts.Env, l: Line)
    requires RendersFormat(cfg, "\"%l\"", env) && Paths.StringContent("\"%l\"") == "%l"
    requires env(l).content.Some? && ValidLine(l)
    ensures var text := env(l).trim(env(l).content.value);
            LineOutput(cfg, l) == if text == "" then None else Some(Strip(text))
  {
    FormatOfLine(cfg, "\"%l\"", env, l);
    assert FormParts.NextToken("%l") == FormParts.Code(FormParts.TRIM_CONTENTS, "");
    var text := env(l).trim(env(l).content.value);
    assert FormParts.Direct("%l", env(l)) == text + "" == text;
  }

  /** Such an input exists. */
  lemma OutputCanBeLost() returns (cfg: Config, env: Line -> FormParts.Env, ls: seq<Line>)
    ensures RendersFormat(cfg, "\"%l\"", env) && ValidLines(ls)
    ensures Stacked(cfg, ls) == "" && Skipping(cfg, ls) == "x"
  {
    var trim: string -> string := s => if s == "\n" then "" else if s == "x\n" then "x" else s;
    env := (l: Line) => FormParts.Env(Some(CString(l.data)), trim, "", None, "", None);
    var parts := FormParts.Compile("", Paths.StringContent("\"%l\""));
    var e := env;
    cfg := Config(false, Some((l: Line) => Some(FormParts.Render(parts, e(l)))));
    var host: HostName := seq(HOST_SIZE, _ => '\0');
    ls := [Line(0, 0, 7, host, "\n\0"), Line(0, 0, 7, host, "x\n\0")];
    BlankLineLosesOutput(cfg, env, ls);
  }
}
