/**
 * The "Send to Blender" command line: `_shell_quote`, the token list of
 * `_build_blender_cmd` and the launcher line written to `open_in_blender.sh`.
 *
 * Quoting is checked against a small POSIX shell word reader (IEEE Std
 * 1003.1, Shell Command Language, section 2.2.1 for the backslash and
 * section 2.2.2 for single quotes; blanks separate words): reading back
 * the launcher line gives exactly the command's tokens.
 */
module BlenderCommand {
  import opened Wrappers

  // ---------------------------------------------------------------------
  // Quoting
  // ---------------------------------------------------------------------

  /** ASCII letters and digits (the model's reading of `str.isalnum`). */
  predicate IsAlnum(c: char)
  {
    ('a' <= c <= 'z') || ('A' <= c <= 'Z') || ('0' <= c <= '9')
  }

  /** Characters `_shell_quote` leaves unquoted. */
  predicate IsSafeChar(c: char)
  {
    IsAlnum(c) || c == '-' || c == '_' || c == '.' || c == '/' || c == '=' || c == ':'
  }

  /** A nonempty string of safe characters only. */
  predicate IsBare(s: string)
  {
    |s| > 0 && forall i :: 0 <= i < |s| ==> IsSafeChar(s[i])
  }

  /** The number of single quotes in `s`. */
  function QuoteCount(s: string): nat
  {
    if s == [] then 0 else (if s[0] == '\'' then 1 else 0) + QuoteCount(s[1..])
  }

  /** `s.replace("'", "'\\''")`: each single quote closes, escapes and reopens the quoting. */
  function Escape(s: string): (r: string)
    ensures |r| == |s| + 3 * QuoteCount(s)
  {
    if s == [] then []
    else (if s[0] == '\'' then "'\\''" else [s[0]]) + Escape(s[1..])
  }

  /** `_shell_quote`. */
  function ShellQuote(s: string): (q: string)
    ensures q == s <==> IsBare(s)
    ensures s == "" ==> q == "''"
    ensures !IsBare(s) ==> |q| == |s| + 2 + 3 * QuoteCount(s) && q[0] == '\'' && q[|q| - 1] == '\''
  {
    if IsBare(s) then s else "'" + Escape(s) + "'"
  }

  // ---------------------------------------------------------------------
  // A POSIX word reader
  // ---------------------------------------------------------------------

  /** Between words, inside an unquoted word, or inside single quotes. */
  datatype ReadState = Blank | Word | Quoted

  /**
   * Splits `s` into words: a blank ends the current word; inside single
   * quotes every character up to the next quote is literal; outside them a
   * backslash makes the next character literal and a quote opens quoting
   * (which starts a word, possibly empty); safe characters are literal.
   * Any other unquoted character is outside what this reader covers and
   * gives `None`, as does an unterminated quote or a trailing backslash.
   */
  function ReadFrom(s: string, st: ReadState, cur: string, acc: seq<string>): Option<seq<string>>
    decreases |s|
  {
    if s == [] then
      match st
      case Blank => Some(acc)
      case Word => Some(acc + [cur])
      case Quoted => None
    else if st == Quoted then
      if s[0] == '\'' then ReadFrom(s[1..], Word, cur, acc) else ReadFrom(s[1..], Quoted, cur + [s[0]], acc)
    else if s[0] == ' ' then
      if st == Word then ReadFrom(s[1..], Blank, "", acc + [cur]) else ReadFrom(s[1..], Blank, "", acc)
    else if s[0] == '\'' then
      ReadFrom(s[1..], Quoted, cur, acc)
    else if s[0] == '\\' then
      if |s| < 2 then None else ReadFrom(s[2..], Word, cur + [s[1]], acc)
    else if IsSafeChar(s[0]) then
      ReadFrom(s[1..], Word, cur + [s[0]], acc)
    else
      None
  }

  function ReadWords(s: string): Option<seq<string>>
  {
    ReadFrom(s, Blank, "", [])
  }

  /** Inside quotes, an escaped quote `'\''` reads as one literal quote and reopens quoting. */
  lemma EscapedQuote(rest: string, cur: string, acc: seq<string>)
    ensures ReadFrom("'\\''" + rest, Quoted, cur, acc) == ReadFrom(rest, Quoted, cur + ['\''], acc)
  {
    var s := "'\\''" + rest;
    assert s[1..] == "\\''" + rest;
    assert s[1..][2..] == "'" + rest;
    assert s[1..][2..][1..] == rest;
    assert ReadFrom(s, Quoted, cur, acc) == ReadFrom(s[1..], Word, cur, acc);
    assert ReadFrom(s[1..], Word, cur, acc) == ReadFrom(s[1..][2..], Word, cur + ['\''], acc);
  }

  /** Inside quotes, any character but a quote is literal. */
  lemma QuotedChar(c: char, rest: string, cur: string, acc: seq<string>)
    requires c != '\''
    ensures ReadFrom([c] + rest, Quoted, cur, acc) == ReadFrom(rest, Quoted, cur + [c], acc)
  {
    assert ([c] + rest)[1..] == rest;
  }

  /** Inside quotes, the escaped form of a first character reads back as that character. */
  lemma EscapeStep(t: string, r: string, cur: string, acc: seq<string>)
    requires t != []
    ensures ReadFrom(Escape(t) + "'" + r, Quoted, cur, acc) == ReadFrom(Escape(t[1..]) + "'" + r, Quoted, cur + [t[0]], acc)
  {
    var rest := Escape(t[1..]) + "'" + r;
    if t[0] == '\'' {
      assert Escape(t) + "'" + r == "'\\''" + rest;
      EscapedQuote(rest, cur, acc);
    } else {
      assert Escape(t) + "'" + r == [t[0]] + rest;
      QuotedChar(t[0], rest, cur, acc);
    }
  }

  /** Inside quotes, an escaped body followed by the closing quote reads back as the body. */
  lemma {:induction false} EscapedBody(t: string, r: string, cur: string, acc: seq<string>)
    ensures ReadFrom(Escape(t) + "'" + r, Quoted, cur, acc) == ReadFrom(r, Word, cur + t, acc)
    decreases |t|
  {
    if t == [] {
      assert Escape(t) + "'" + r == ['\''] + r;
      assert cur + t == cur;
    } else {
      EscapeStep(t, r, cur, acc);
      EscapedBody(t[1..], r, cur + [t[0]], acc);
      assert cur + [t[0]] + t[1..] == cur + t;
    }
  }

  /** Safe characters extend the current word one by one. */
  lemma {:induction false} SafeWord(t: string, r: string, cur: string, acc: seq<string>)
    requires forall i :: 0 <= i < |t| ==> IsSafeChar(t[i])
    ensures ReadFrom(t + r, Word, cur, acc) == ReadFrom(r, Word, cur + t, acc)
    decreases |t|
  {
    if t == [] {
      assert t + r == r;
      assert cur + t == cur;
    } else {
      SafeWord(t[1..], r, cur + [t[0]], acc);
      assert (t + r)[1..] == t[1..] + r;
      assert cur + [t[0]] + t[1..] == cur + t;
    }
  }

  /** Outside quotes, a safe character is appended to the current word. */
  lemma SafeStep(s: string, st: ReadState, cur: string, acc: seq<string>)
    requires s != [] && st != Quoted && IsSafeChar(s[0])
    ensures ReadFrom(s, st, cur, acc) == ReadFrom(s[1..], Word, cur + [s[0]], acc)
  {
    assert s[0] != ' ' && s[0] != '\'' && s[0] != '\\';
  }

  /** Between words, a bare word reads back as itself. */
  lemma BareWord(t: string, r: string, acc: seq<string>)
    requires IsBare(t)
    ensures ReadFrom(t + r, Blank, "", acc) == ReadFrom(r, Word, t, acc)
  {
    assert (t + r)[0] == t[0];
    SafeStep(t + r, Blank, "", acc);
    assert (t + r)[1..] == t[1..] + r;
    assert "" + [t[0]] == [t[0]];
    SafeWord(t[1..], r, [t[0]], acc);
    assert [t[0]] + t[1..] == t;
  }

  /** Outside quotes, a single quote opens quoting. */
  lemma QuoteStep(s: string, st: ReadState, cur: string, acc: seq<string>)
    requires s != [] && st != Quoted && s[0] == '\''
    ensures ReadFrom(s, st, cur, acc) == ReadFrom(s[1..], Quoted, cur, acc)
  {
  }

  /** A blank after a word ends it. */
  lemma BlankStep(s: string, cur: string, acc: seq<string>)
    requires s != [] && s[0] == ' '
    ensures ReadFrom(s, Word, cur, acc) == ReadFrom(s[1..], Blank, "", acc + [cur])
  {
  }

  /** Between words, a string in quotes with its quotes escaped reads back as the string. */
  lemma QuotedBody(t: string, r: string, acc: seq<string>)
    ensures ReadFrom("'" + Escape(t) + "'" + r, Blank, "", acc) == ReadFrom(r, Word, t, acc)
  {
    var s := "'" + Escape(t) + "'" + r;
    assert s == "'" + (Escape(t) + "'" + r);
    assert s[1..] == Escape(t) + "'" + r;
    QuoteStep(s, Blank, "", acc);
    EscapedBody(t, r, "", acc);
    assert "" + t == t;
  }

  /** Between words, a quoted word reads back as the original string. */
  lemma QuotedWord(t: string, r: string, acc: seq<string>)
    ensures ReadFrom(ShellQuote(t) + r, Blank, "", acc) == ReadFrom(r, Word, t, acc)
  {
    if IsBare(t) {
      BareWord(t, r, acc);
    } else {
      QuotedBody(t, r, acc);
    }
  }

  /** The launcher line, `" ".join` of the quoted tokens: each token quoted, single blanks between them. */
  function LauncherLine(cmd: seq<string>): string
  {
    if cmd == [] then ""
    else if |cmd| == 1 then ShellQuote(cmd[0])
    else ShellQuote(cmd[0]) + " " + LauncherLine(cmd[1..])
  }

  /** A one-token line reads back as that token. */
  lemma LauncherLineOne(cmd: seq<string>, acc: seq<string>)
    requires |cmd| == 1
    ensures ReadFrom(LauncherLine(cmd), Blank, "", acc) == Some(acc + cmd)
  {
    assert LauncherLine(cmd) == ShellQuote(cmd[0]) + "";
    QuotedWord(cmd[0], "", acc);
    assert acc + cmd == acc + [cmd[0]];
  }

  /** Reading a line of two or more tokens yields the first token, then reads the line of the rest. */
  lemma LauncherLineHead(cmd: seq<string>, acc: seq<string>)
    requires |cmd| >= 2
    ensures ReadFrom(LauncherLine(cmd), Blank, "", acc) == ReadFrom(LauncherLine(cmd[1..]), Blank, "", acc + [cmd[0]])
  {
    var tail := LauncherLine(cmd[1..]);
    assert LauncherLine(cmd) == ShellQuote(cmd[0]) + (" " + tail);
    QuotedWord(cmd[0], " " + tail, acc);
    BlankStep(" " + tail, cmd[0], acc);
    assert (" " + tail)[1..] == tail;
  }

  /** Reading the rest of the tokens after the first gives back the whole list. */
  lemma LauncherLineTail(cmd: seq<string>, acc: seq<string>)
    requires |cmd| >= 2
    requires ReadFrom(LauncherLine(cmd[1..]), Blank, "", acc + [cmd[0]]) == Some(acc + [cmd[0]] + cmd[1..])
    ensures ReadFrom(LauncherLine(cmd), Blank, "", acc) == Some(acc + cmd)
  {
    LauncherLineHead(cmd, acc);
    assert acc + [cmd[0]] + cmd[1..] == acc + cmd;
  }

  lemma {:induction false} LauncherLineFrom(cmd: seq<string>, acc: seq<string>)
    ensures ReadFrom(LauncherLine(cmd), Blank, "", acc) == Some(acc + cmd)
    decreases |cmd|
  {
    if cmd == [] {
      assert acc + cmd == acc;
    } else if |cmd| == 1 {
      LauncherLineOne(cmd, acc);
    } else {
      LauncherLineFrom(cmd[1..], acc + [cmd[0]]);
      LauncherLineTail(cmd, acc);
    }
  }

  /**
   * The shell reads the launcher line back as exactly the command's
   * tokens, whatever characters they hold.
   */
  lemma LauncherLineRoundTrip(cmd: seq<string>)
    ensures ReadWords(LauncherLine(cmd)) == Some(cmd)
  {
    LauncherLineFrom(cmd, []);
    assert [] + cmd == cmd;
  }

  /** The fallback command shown when Blender cannot be launched directly. */
  function BashCommand(launcherPath: string): string
  {
    "bash " + ShellQuote(launcherPath)
  }

  /** It runs `bash` on exactly the launcher's path. */
  lemma BashCommandRoundTrip(launcherPath: string)
    ensures ReadWords(BashCommand(launcherPath)) == Some(["bash", launcherPath])
  {
    assert IsBare("bash");
    assert BashCommand(launcherPath) == ShellQuote("bash") + (" " + ShellQuote(launcherPath));
    QuotedWord("bash", " " + ShellQuote(launcherPath), []);
    assert (" " + ShellQuote(launcherPath))[1..] == ShellQuote(launcherPath);
    var q := ShellQuote(launcherPath);
    assert ReadFrom(" " + q, Word, "bash", []) == ReadFrom(q, Blank, "", [] + ["bash"]);
    assert q + "" == q;
    QuotedWord(launcherPath, "", [] + ["bash"]);
    assert [] + ["bash"] + [launcherPath] == ["bash", launcherPath];
  }

  /** Distinct strings are quoted differently. */
  lemma ShellQuoteInjective(s: string, t: string)
    requires ShellQuote(s) == ShellQuote(t)
    ensures s == t
  {
    LauncherLineRoundTrip([s]);
    LauncherLineRoundTrip([t]);
    assert LauncherLine([s]) == ShellQuote(s);
    assert LauncherLine([t]) == ShellQuote(t);
  }

  // ---------------------------------------------------------------------
  // Numbers as text
  // ---------------------------------------------------------------------

  function DigitChar(d: nat): (c: char)
    requires d < 10
    ensures c == '0' <==> d == 0
  {
    "0123456789"[d]
  }

  /** `str(n)` for a natural number. */
  function NatToString(n: nat): (s: string)
    ensures |s| > 0
    ensures forall i :: 0 <= i < |s| ==> '0' <= s[i] <= '9'
    ensures |s| > 1 ==> s[0] != '0'
    ensures s[0] == '0' <==> n == 0
  {
    if n < 10 then [DigitChar(n)] else NatToString(n / 10) + [DigitChar(n % 10)]
  }

  /** `str(i)` for an integer: a minus sign before the digits of a negative one. */
  function IntToString(i: int): string
  {
    if i < 0 then "-" + NatToString(-i) else NatToString(i)
  }

  /** The value of a string of decimal digits. */
  function ParseDecimal(s: string): nat
    requires forall i :: 0 <= i < |s| ==> '0' <= s[i] <= '9'
  {
    if s == [] then 0
    else ParseDecimal(s[..|s| - 1]) * 10 + ((s[|s| - 1] as int) - ('0' as int))
  }

  /** Reading the digits back gives the number. */
  lemma {:induction false} NatToStringRoundTrip(n: nat)
    ensures ParseDecimal(NatToString(n)) == n
  {
    if n >= 10 {
      NatToStringRoundTrip(n / 10);
      var s := NatToString(n);
      assert s[..|s| - 1] == NatToString(n / 10);
    }
  }

  // ---------------------------------------------------------------------
  // The Blender command
  // ---------------------------------------------------------------------

  /** The render resolution of a preset index, Full HD for an unknown one. */
  function Resolution(index: int): (res: (nat, nat))
    ensures res.1 <= res.0 && res.1 >= 1080
    ensures !(0 <= index < 4) ==> res == (1920, 1080)
  {
    if index == 0 then (1920, 1080)
    else if index == 1 then (2560, 1440)
    else if index == 2 then (3840, 2160)
    else if index == 3 then (1080, 1080)
    else (1920, 1080)
  }

  const MaterialKeys: seq<string> := ["match_freecad", "white_plastic", "dark_grey_plastic", "brushed_aluminum", "raw"]

  /**
   * `material_keys[index]` with Python list indexing: a negative index
   * counts from the end, and one outside `-5 .. 4` raises `IndexError`.
   */
  function MaterialKey(index: int): (key: Option<string>)
    ensures key.Some? <==> -|MaterialKeys| <= index < |MaterialKeys|
    ensures 0 <= index < |MaterialKeys| ==> key == Some(MaterialKeys[index])
    ensures -|MaterialKeys| <= index < 0 ==> key == Some(MaterialKeys[|MaterialKeys| + index])
    ensures index == -1 ==> key == Some("raw")
  {
    if 0 <= index < |MaterialKeys| then Some(MaterialKeys[index])
    else if -|MaterialKeys| <= index < 0 then Some(MaterialKeys[|MaterialKeys| + index])
    else None
  }

  const DefaultColor: string := "0.8,0.8,0.8"

  datatype CommandError = IndexError

  /**
   * `_build_blender_cmd`: the Blender executable, the studio script, `--`,
   * and the scene options after it. The object's formatted shape colour
   * (`None` when it has none) and the text of the focal length are given.
   */
  function BlenderCommand(blenderPath: string, stlPath: string, scriptPath: string,
                          materialIndex: int, resolutionIndex: int, colorText: Option<string>,
                          samples: int, focalText: string): (r: Result<seq<string>, CommandError>)
    ensures r.Failure? <==> MaterialKey(materialIndex).None?
    ensures r.Success? ==> |r.value| == 17
  {
    match MaterialKey(materialIndex)
    case None => Failure(IndexError)
    case Some(material) =>
      Success([blenderPath, "--python", scriptPath, "--"]
              + ScriptArguments(stlPath, material, ColorOrDefault(colorText), Resolution(resolutionIndex),
                                samples, focalText))
  }

  function ColorOrDefault(colorText: Option<string>): string
  {
    match colorText
    case Some(c) => c
    case None => DefaultColor
  }

  /** The tokens after `--`, which Blender hands to the studio script. */
  function ScriptArguments(stlPath: string, material: string, color: string, res: (nat, nat),
                           samples: int, focalText: string): seq<string>
  {
    ["--stl", stlPath,
     "--material", material,
     "--freecad-color", color,
     "--resolution", NatToString(res.0), NatToString(res.1),
     "--samples", IntToString(samples),
     "--focal-length", focalText]
  }

  /** An option word starts with `--`. */
  predicate IsOption(t: string)
  {
    |t| >= 2 && t[..2] == "--"
  }

  /** Values each option takes: two for `--resolution`, one for the others. */
  function Arity(option: string): nat
  {
    if option == "--resolution" then 2 else 1
  }

  /**
   * Reads script arguments as options each followed by its values, the way
   * the studio script's argument parser groups them.
   */
  function ParseOptions(args: seq<string>): Option<seq<(string, seq<string>)>>
    decreases |args|
  {
    if args == [] then Some([])
    else if !IsOption(args[0]) || |args| < 1 + Arity(args[0]) then None
    else
      match ParseOptions(args[1 + Arity(args[0])..])
      case None => None
      case Some(rest) => Some([(args[0], args[1..1 + Arity(args[0])])] + rest)
  }

  /** An option followed by its values, then further options. */
  lemma ParseOptionsCons(option: string, values: seq<string>, rest: seq<string>, parsed: seq<(string, seq<string>)>)
    requires IsOption(option) && |values| == Arity(option)
    requires ParseOptions(rest) == Some(parsed)
    ensures ParseOptions([option] + values + rest) == Some([(option, values)] + parsed)
  {
    var args := [option] + values + rest;
    assert args[0] == option;
    assert args[1..1 + |values|] == values;
    assert args[1 + |values|..] == rest;
  }

  lemma OptionWords()
    ensures IsOption("--stl") && Arity("--stl") == 1
    ensures IsOption("--material") && Arity("--material") == 1
    ensures IsOption("--freecad-color") && Arity("--freecad-color") == 1
    ensures IsOption("--resolution") && Arity("--resolution") == 2
    ensures IsOption("--samples") && Arity("--samples") == 1
    ensures IsOption("--focal-length") && Arity("--focal-length") == 1
  {
  }

  /** The last three options: the resolution with its two values, the samples and the focal length. */
  lemma RenderOptions(resX: string, resY: string, samples: string, focal: string)
    ensures ParseOptions(["--resolution", resX, resY, "--samples", samples, "--focal-length", focal])
         == Some([("--resolution", [resX, resY]), ("--samples", [samples]), ("--focal-length", [focal])])
  {
    OptionWords();
    assert ParseOptions([]) == Some([]);
    ParseOptionsCons("--focal-length", [focal], [], []);
    var a1 := ["--focal-length", focal];
    var p1 := [("--focal-length", [focal])];
    assert ["--focal-length"] + [focal] + [] == a1;
    assert [("--focal-length", [focal])] + [] == p1;
    ParseOptionsCons("--samples", [samples], a1, p1);
    var a2 := ["--samples", samples] + a1;
    var p2 := [("--samples", [samples])] + p1;
    assert ["--samples"] + [samples] + a1 == a2;
    ParseOptionsCons("--resolution", [resX, resY], a2, p2);
    assert ["--resolution"] + [resX, resY] + a2 == ["--resolution", resX, resY, "--samples", samples, "--focal-length", focal];
    assert [("--resolution", [resX, resY])] + p2
        == [("--resolution", [resX, resY]), ("--samples", [samples]), ("--focal-length", [focal])];
  }

  /** The script arguments `_build_blender_cmd` writes group into their six options. */
  lemma ScriptOptions(stl: string, material: string, color: string, resX: string, resY: string,
                      samples: string, focal: string)
    ensures ParseOptions(["--stl", stl, "--material", material, "--freecad-color", color,
                          "--resolution", resX, resY, "--samples", samples, "--focal-length", focal])
         == Some([("--stl", [stl]), ("--material", [material]), ("--freecad-color", [color]),
                  ("--resolution", [resX, resY]), ("--samples", [samples]), ("--focal-length", [focal])])
  {
    OptionWords();
    var a3 := ["--resolution", resX, resY, "--samples", samples, "--focal-length", focal];
    var p3 := [("--resolution", [resX, resY]), ("--samples", [samples]), ("--focal-length", [focal])];
    RenderOptions(resX, resY, samples, focal);
    ParseOptionsCons("--freecad-color", [color], a3, p3);
    var a4 := ["--freecad-color", color] + a3;
    var p4 := [("--freecad-color", [color])] + p3;
    assert ["--freecad-color"] + [color] + a3 == a4;
    ParseOptionsCons("--material", [material], a4, p4);
    var a5 := ["--material", material] + a4;
    var p5 := [("--material", [material])] + p4;
    assert ["--material"] + [material] + a4 == a5;
    ParseOptionsCons("--stl", [stl], a5, p5);
    assert ["--stl"] + [stl] + a5 == ["--stl", stl, "--material", material, "--freecad-color", color,
                                      "--resolution", resX, resY, "--samples", samples, "--focal-length", focal];
    assert [("--stl", [stl])] + p5 == [("--stl", [stl]), ("--material", [material]), ("--freecad-color", [color]),
                                      ("--resolution", [resX, resY]), ("--samples", [samples]), ("--focal-length", [focal])];
  }

  /**
   * Blender runs the studio script, and the script's arguments group into
   * the six options with their values: the STL path, the material key, the
   * colour (the default when the object has none), the resolution preset
   * as two decimal numbers, the samples and the focal length.
   */
  lemma BlenderCommandOptions(blenderPath: string, stlPath: string, scriptPath: string,
                              materialIndex: int, resolutionIndex: int, colorText: Option<string>,
                              samples: int, focalText: string)
    requires MaterialKey(materialIndex).Some?
    ensures var cmd := BlenderCommand(blenderPath, stlPath, scriptPath, materialIndex, resolutionIndex,
                                      colorText, samples, focalText).value;
      var res := Resolution(resolutionIndex);
      cmd[..4] == [blenderPath, "--python", scriptPath, "--"]
      && ParseOptions(cmd[4..]) == Some([("--stl", [stlPath]),
                                         ("--material", [MaterialKey(materialIndex).value]),
                                         ("--freecad-color", [ColorOrDefault(colorText)]),
                                         ("--resolution", [NatToString(res.0), NatToString(res.1)]),
                                         ("--samples", [IntToString(samples)]),
                                         ("--focal-length", [focalText])])
  {
    var res := Resolution(resolutionIndex);
    var args := ScriptArguments(stlPath, MaterialKey(materialIndex).value, ColorOrDefault(colorText), res,
                                samples, focalText);
    var head := [blenderPath, "--python", scriptPath, "--"];
    assert (head + args)[..4] == head;
    assert (head + args)[4..] == args;
    ScriptOptions(stlPath, MaterialKey(materialIndex).value, ColorOrDefault(colorText), NatToString(res.0),
                  NatToString(res.1), IntToString(samples), focalText);
  }
}
