/** Shell quoting, read back by a tokenizer after sections 2.2.1, 2.2.2, 2.2.3 and 2.3 of POSIX.1-2017 XCU. */
module ShellQuote {
  import opened Wrappers

  // ---- Building command lines ------------------------------------------------------------------------------

  /** Each embedded quote closes the string, adds an escaped quote and opens it again. */
  function ShellEscape(s: string): string {
    if s == [] then [] else (if s[0] == '\'' then "'\\''" else [s[0]]) + ShellEscape(s[1..])
  }

  predicate SafeChar(c: char) {
    'A' <= c <= 'Z' || 'a' <= c <= 'z' || '0' <= c <= '9' || c in "_@%+=:,./-"
  }

  predicate Safe(s: string) { forall k :: 0 <= k < |s| ==> SafeChar(s[k]) }

  function Quote(s: string): string {
    if s != [] && Safe(s) then s else "'" + ShellEscape(s) + "'"
  }

  /** `%d`. */
  function Decimal(n: int): string
    decreases if n < 0 then 1 - n else n
  {
    if n < 0 then "-" + Decimal(-n)
    else if n < 10 then ["0123456789"[n]]
    else Decimal(n / 10) + ["0123456789"[n % 10]]
  }

  /** What a format string puts side by side: literal text, a value through `Quote`, or a value escaped
      between quotes of the format itself. */
  datatype Piece = Bare(text: string) | Quoted(text: string) | Enclosed(text: string)

  function Rendered(p: Piece): string {
    match p
    case Bare(t) => t
    case Quoted(t) => Quote(t)
    case Enclosed(t) => "'" + ShellEscape(t) + "'"
  }

  function RenderWord(ps: seq<Piece>): string {
    if ps == [] then "" else Rendered(ps[0]) + RenderWord(ps[1..])
  }

  /** Words side by side with blanks between. */
  function Render(line: seq<seq<Piece>>): string {
    if line == [] then "" else if |line| == 1 then RenderWord(line[0]) else RenderWord(line[0]) + " " + Render(line[1..])
  }

  function ExecLine(vmid: int, command: string): string {
    Render([[Bare("pct")], [Bare("exec")], [Bare(Decimal(vmid))], [Bare("--")], [Bare("bash")], [Bare("-c")], [Enclosed(command)]])
  }

  function MediaPath(root: string, vmid: int, dir: string): seq<Piece> {
    [Quoted(root), Bare("/" + Decimal(vmid) + dir)]
  }

  function MountPoint(root: string, app: string, vmid: int, dir: string): seq<Piece> {
    MediaPath(root, vmid, dir + ",mp=") + [Quoted(app), Bare("/content" + dir)]
  }

  function MkdirLine(root: string, vmid: int): string {
    var dirs := [MediaPath(root, vmid, "/visuals"), MediaPath(root, vmid, "/music")];
    Render([[Bare("mkdir")], [Bare("-p")]] + dirs) + " && " + Render([[Bare("chmod")], [Bare("777")]] + dirs)
  }

  function MountLine(root: string, app: string, vmid: int): string {
    Render([[Bare("pct")], [Bare("set")], [Bare(Decimal(vmid))],
      [Bare("-mp0")], MountPoint(root, app, vmid, "/visuals"), [Bare("-mp1")], MountPoint(root, app, vmid, "/music")])
  }

  // ---- The shell -------------------------------------------------------------------------------------------

  datatype Token = Word(text: string) | AndIf

  /** `Active`: an unquoted character that is not plain text, whose meaning is not followed further. */
  datatype Line = Tokens(tokens: seq<Token>) | Unclosed | Active

  /** Between words, or inside one (with its text so far) outside quotes, in single or in double quotes. */
  datatype Mode = Blank | Plain(word: string) | Single(word: string) | Double(word: string)

  predicate IsBlank(c: char) { c == ' ' || c == '\t' }

  /** Operators, expansions, patterns, comments, tildes, braces, history. */
  predicate IsActive(c: char) { c in "|&;<>()$`\n*?[]{}~!#^" }

  function Text(mode: Mode): string { if mode.Blank? then "" else mode.word }

  function Close(done: seq<Token>, mode: Mode): seq<Token> {
    if mode.Plain? then done + [Word(mode.word)] else done
  }

  /** One step of the tokenizer: how many characters it takes and where it goes on, or why it stops. */
  datatype Move = Halt(line: Line) | Take(n: nat, done: seq<Token>, mode: Mode)

  function Next(s: string, done: seq<Token>, mode: Mode): (m: Move)
    requires s != []
    ensures m.Take? ==> 1 <= m.n <= |s|
  {
    match mode
    case Single(w) => Take(1, done, if s[0] == '\'' then Plain(w) else Single(w + [s[0]]))
    case Double(w) => InDouble(s, done, w)
    case _ => Unquoted(s, done, mode)
  }

  function InDouble(s: string, done: seq<Token>, w: string): (m: Move)
    requires s != []
    ensures m.Take? ==> 1 <= m.n <= |s|
  {
    var c := s[0];
    if c == '"' then Take(1, done, Plain(w))
    else if c == '$' || c == '`' then Halt(Active)
    else if c == '\\' && |s| > 1 && s[1] in "$`\"\\" then Take(2, done, Double(w + [s[1]]))
    else if c == '\\' && |s| > 1 && s[1] == '\n' then Take(2, done, Double(w))
    else Take(1, done, Double(w + [c]))
  }

  function Unquoted(s: string, done: seq<Token>, mode: Mode): (m: Move)
    requires s != [] && (mode.Blank? || mode.Plain?)
    ensures m.Take? ==> 1 <= m.n <= |s|
  {
    var c := s[0];
    if IsBlank(c) then Take(1, Close(done, mode), Blank)
    else if c == '\'' then Take(1, done, Single(Text(mode)))
    else if c == '"' then Take(1, done, Double(Text(mode)))
    else if c == '\\' && |s| > 1 then Take(2, done, if s[1] == '\n' then mode else Plain(Text(mode) + [s[1]]))
    else if c == '&' && |s| > 1 && s[1] == '&' then Take(2, Close(done, mode) + [AndIf], Blank)
    else if IsActive(c) then Halt(Active)
    else Take(1, done, Plain(Text(mode) + [c]))
  }

  function Read(s: string, done: seq<Token>, mode: Mode): Line
    decreases |s|
  {
    if s == [] then
      if mode.Single? || mode.Double? then Unclosed else Tokens(Close(done, mode))
    else
      match Next(s, done, mode)
      case Halt(line) => line
      case Take(n, done', mode') => Read(s[n..], done', mode')
  }

  function Shell(s: string): Line { Read(s, [], Blank) }

  // ---- One piece -------------------------------------------------------------------------------------------

  lemma SafeIsPlain(c: char)
    requires SafeChar(c)
    ensures !IsBlank(c) && !IsActive(c) && c != '\'' && c != '"' && c != '\\' && c != '&'
  {
  }

  lemma ReadSafeChar(s: string, done: seq<Token>, mode: Mode)
    requires s != [] && SafeChar(s[0]) && (mode.Blank? || mode.Plain?)
    ensures Read(s, done, mode) == Read(s[1..], done, Plain(Text(mode) + [s[0]]))
  {
    SafeIsPlain(s[0]);
  }

  /** Safe characters are read as themselves and extend the current word, or start one. */
  lemma {:induction false} SafeIsLiteral(s: string, rest: string, done: seq<Token>, mode: Mode)
    requires Safe(s) && (mode.Plain? || (mode.Blank? && s != []))
    ensures Read(s + rest, done, mode) == Read(rest, done, Plain(Text(mode) + s))
    decreases |s|
  {
    hide Read;
    if s == [] {
      assert s + rest == rest && mode.word + s == mode.word;
    } else {
      ReadSafeChar(s + rest, done, mode);
      assert (s + rest)[1..] == s[1..] + rest;
      SafeIsLiteral(s[1..], rest, done, Plain(Text(mode) + [s[0]]));
      assert Text(mode) + [s[0]] + s[1..] == Text(mode) + s;
    }
  }

  /** Inside single quotes the escaped text, then the closing quote, reads back as the text. */
  lemma {:induction false} EscapedIsLiteral(s: string, rest: string, done: seq<Token>, w: string)
    ensures Read(ShellEscape(s) + "'" + rest, done, Single(w)) == Read(rest, done, Plain(w + s))
    decreases |s|
  {
    if s == [] {
      assert ShellEscape(s) + "'" + rest == "'" + rest;
      assert ("'" + rest)[1..] == rest;
      assert w + s == w;
    } else {
      var tail := ShellEscape(s[1..]) + "'" + rest;
      EscapedIsLiteral(s[1..], rest, done, w + [s[0]]);
      assert w + [s[0]] + s[1..] == w + s;
      if s[0] == '\'' {
        assert ShellEscape(s) + "'" + rest == "'\\''" + tail;
        ReopenQuote(tail, done, w);
      } else {
        assert ShellEscape(s) + "'" + rest == [s[0]] + tail;
        assert ([s[0]] + tail)[1..] == tail;
      }
    }
  }

  lemma ReopenQuote(tail: string, done: seq<Token>, w: string)
    ensures Read("'\\''" + tail, done, Single(w)) == Read(tail, done, Single(w + "'"))
  {
    var s := "'\\''" + tail;
    assert s[1..] == "\\''" + tail;
    assert s[1..][1..] == "''" + tail;
    assert s[1..][1..][1..] == "'" + tail;
    assert ("'" + tail)[1..] == tail;
    assert Read(s, done, Single(w)) == Read("\\''" + tail, done, Plain(w));
    assert Read("\\''" + tail, done, Plain(w)) == Read("'" + tail, done, Plain(w + "'"));
  }

  lemma EnclosedIsLiteral(s: string, rest: string, done: seq<Token>, mode: Mode)
    requires mode.Blank? || mode.Plain?
    ensures Read(Rendered(Enclosed(s)) + rest, done, mode) == Read(rest, done, Plain(Text(mode) + s))
  {
    var body := ShellEscape(s) + "'" + rest;
    assert Rendered(Enclosed(s)) + rest == "'" + body;
    assert ("'" + body)[1..] == body;
    EscapedIsLiteral(s, rest, done, Text(mode));
  }

  /** Quoted text extends the current word, or starts one, with exactly that text. */
  lemma QuoteIsLiteral(s: string, rest: string, done: seq<Token>, mode: Mode)
    requires mode.Blank? || mode.Plain?
    ensures Read(Quote(s) + rest, done, mode) == Read(rest, done, Plain(Text(mode) + s))
  {
    if s != [] && Safe(s) {
      SafeIsLiteral(s, rest, done, mode);
    } else {
      EnclosedIsLiteral(s, rest, done, mode);
    }
  }

  lemma LineEndsInWord(done: seq<Token>, w: string)
    ensures Read("", done, Plain(w)) == Tokens(done + [Word(w)])
  {
  }

  /** Every string, the empty one included, comes back as one word. */
  lemma QuoteIsOneWord(s: string)
    ensures Shell(Quote(s)) == Tokens([Word(s)])
  {
    hide Read, Quote;
    QuoteIsLiteral(s, "", [], Blank);
    LineEndsInWord([], s);
    assert Quote(s) + "" == Quote(s);
    assert "" + s == s;
  }

  /** What needs no quotes gets none: a value comes back as it is exactly if it is not empty and made of letters, digits
      and a few marks. */
  lemma PlainStaysPlain(s: string)
    ensures Quote(s) == s <==> s != "" && forall k :: 0 <= k < |s| ==>
      'A' <= s[k] <= 'Z' || 'a' <= s[k] <= 'z' || '0' <= s[k] <= '9' || s[k] in "_@%+=:,./-"
  {
    assert Safe(s) <==> forall k :: 0 <= k < |s| ==>
      'A' <= s[k] <= 'Z' || 'a' <= s[k] <= 'z' || '0' <= s[k] <= '9' || s[k] in "_@%+=:,./-";
    hide Safe;
    EscapeGrows(s);
    assert !(s != "" && Safe(s)) ==> |Quote(s)| > |s|;
    assert s != "" && Safe(s) ==> Quote(s) == s;
  }

  lemma {:induction false} EscapeGrows(s: string)
    ensures |ShellEscape(s)| >= |s|
  {
    if s != [] { EscapeGrows(s[1..]); }
  }

  lemma QuotesApart(s: string, t: string)
    requires s != t
    ensures Quote(s) != Quote(t)
  {
    QuoteIsOneWord(s);
    QuoteIsOneWord(t);
  }

  /** A quoted value with a safe suffix is still one word. */
  lemma QuoteThenSafe(s: string, t: string)
    requires Safe(t)
    ensures Shell(Quote(s) + t) == Tokens([Word(s + t)])
  {
    hide Read, Quote;
    QuoteIsLiteral(s, t, [], Blank);
    LineEndsInWord([], s + t);
    assert "" + s == s;
    assert t + "" == t;
    SafeIsLiteral(t, "", [], Plain(s));
  }

  // ---- Whole lines -----------------------------------------------------------------------------------------

  function MeantWord(ps: seq<Piece>): string {
    if ps == [] then "" else ps[0].text + MeantWord(ps[1..])
  }

  function Meant(line: seq<seq<Piece>>): seq<Token> {
    seq(|line|, i requires 0 <= i < |line| => Word(MeantWord(line[i])))
  }

  /** The format's own text is plain: every bare piece is safe, and no word is left out. */
  predicate PlainPiece(p: Piece) { p.Bare? ==> p.text != [] && Safe(p.text) }

  predicate PlainWord(ps: seq<Piece>) { ps != [] && forall k :: 0 <= k < |ps| ==> PlainPiece(ps[k]) }

  predicate PlainLine(line: seq<seq<Piece>>) { forall k :: 0 <= k < |line| ==> PlainWord(line[k]) }

  lemma PieceIsLiteral(p: Piece, rest: string, done: seq<Token>, mode: Mode)
    requires PlainPiece(p) && (mode.Blank? || mode.Plain?)
    ensures Read(Rendered(p) + rest, done, mode) == Read(rest, done, Plain(Text(mode) + p.text))
  {
    match p
    case Bare(t) => SafeIsLiteral(t, rest, done, mode);
    case Quoted(t) => QuoteIsLiteral(t, rest, done, mode);
    case Enclosed(t) => EnclosedIsLiteral(t, rest, done, mode);
  }

  lemma {:induction false} WordIsLiteral(ps: seq<Piece>, rest: string, done: seq<Token>, mode: Mode)
    requires forall k :: 0 <= k < |ps| ==> PlainPiece(ps[k])
    requires mode.Plain? || (mode.Blank? && ps != [])
    ensures Read(RenderWord(ps) + rest, done, mode) == Read(rest, done, Plain(Text(mode) + MeantWord(ps)))
    decreases |ps|
  {
    hide Read, Rendered;
    if ps == [] {
      assert RenderWord(ps) + rest == rest && mode.word + "" == mode.word;
    } else {
      assert RenderWord(ps) + rest == Rendered(ps[0]) + (RenderWord(ps[1..]) + rest);
      PieceIsLiteral(ps[0], RenderWord(ps[1..]) + rest, done, mode);
      WordIsLiteral(ps[1..], rest, done, Plain(Text(mode) + ps[0].text));
      assert Text(mode) + ps[0].text + MeantWord(ps[1..]) == Text(mode) + MeantWord(ps);
    }
  }

  /** One word, up to the blank or the end of the line that follows it. */
  lemma WordIsRead(ps: seq<Piece>, rest: string, done: seq<Token>)
    requires PlainWord(ps) && (rest == [] || IsBlank(rest[0]))
    ensures Read(RenderWord(ps) + rest, done, Blank) == Read(rest, done + [Word(MeantWord(ps))], Blank)
  {
    hide Read;
    WordIsLiteral(ps, rest, done, Blank);
    assert "" + MeantWord(ps) == MeantWord(ps);
    EndOfWord(rest, done, MeantWord(ps));
  }

  lemma BlankBetween(line: seq<seq<Piece>>, rest: string)
    requires |line| > 1
    ensures Render(line) + rest == RenderWord(line[0]) + (" " + (Render(line[1..]) + rest))
  {
    hide RenderWord;
    Regroup(RenderWord(line[0]), " ", Render(line[1..]));
    Regroup(RenderWord(line[0]), " " + Render(line[1..]), rest);
    Regroup(" ", Render(line[1..]), rest);
  }

  /** A line, up to where the next thing follows its last word. */
  lemma {:induction false} LineIsRead(line: seq<seq<Piece>>, rest: string, done: seq<Token>)
    requires PlainLine(line) && line != []
    requires rest == [] || IsBlank(rest[0])
    ensures Read(Render(line) + rest, done, Blank) == Read(rest, done + Meant(line), Blank)
    decreases |line|
  {
    hide Read, RenderWord, MeantWord;
    var first := line[0];
    if |line| == 1 {
      WordIsRead(first, rest, done);
      assert Meant(line) == [Word(MeantWord(first))];
    } else {
      var more := Render(line[1..]) + rest;
      BlankBetween(line, rest);
      WordIsRead(first, " " + more, done);
      SkipBlank(more, done + [Word(MeantWord(first))]);
      assert forall k :: 0 <= k < |line[1..]| ==> line[1..][k] == line[k + 1];
      LineIsRead(line[1..], rest, done + [Word(MeantWord(first))]);
      assert done + [Word(MeantWord(first))] + Meant(line[1..]) == done + Meant(line);
    }
  }

  lemma SkipBlank(rest: string, done: seq<Token>)
    ensures Read(" " + rest, done, Blank) == Read(rest, done, Blank)
  {
    assert (" " + rest)[1..] == rest;
  }

  lemma EndOfWord(rest: string, done: seq<Token>, w: string)
    requires rest == [] || IsBlank(rest[0])
    ensures Read(rest, done, Plain(w)) == Read(rest, done + [Word(w)], Blank)
  {
  }

  /** Whatever the quoted and enclosed values hold, the words the shell sees are those the format means. */
  lemma RenderedLineIsRead(line: seq<seq<Piece>>)
    requires PlainLine(line)
    ensures Shell(Render(line)) == Tokens(Meant(line))
  {
    if line != [] {
      LineIsRead(line, "", []);
      assert Render(line) + "" == Render(line);
      assert [] + Meant(line) == Meant(line);
    }
  }

  // ---- The lines the provisioner sends ---------------------------------------------------------------------

  lemma {:induction false} DecimalIsSafe(n: int)
    ensures Safe(Decimal(n)) && Decimal(n) != []
    decreases if n < 0 then 1 - n else n
  {
    if n < 0 {
      DecimalIsSafe(-n);
    } else if n >= 10 {
      DecimalIsSafe(n / 10);
    }
  }

  lemma OnePiece(p: Piece)
    ensures MeantWord([p]) == p.text
  {
    assert [p][1..] == [] && p.text + "" == p.text;
  }

  predicate IsDigits(s: string) { s != "" && forall k :: 0 <= k < |s| ==> '0' <= s[k] <= '9' }

  /** A decimal, read back. */
  function NumberOf(s: string): int
    requires IsDigits(s)
  {
    var low := s[|s| - 1] as int - '0' as int;
    if |s| == 1 then low else NumberOf(s[..|s| - 1]) * 10 + low
  }

  /** `%d` writes the number it is given. */
  lemma {:induction false} DecimalIsNumber(n: nat)
    ensures IsDigits(Decimal(n)) && NumberOf(Decimal(n)) == n
    ensures n > 0 ==> Decimal(-(n as int)) == "-" + Decimal(n)
    decreases n
  {
    if n >= 10 {
      DecimalIsNumber(n / 10);
      AddDigit(Decimal(n / 10), n % 10);
      hide NumberOf;
    }
  }

  lemma AddDigit(s: string, d: nat)
    requires IsDigits(s) && d < 10
    ensures IsDigits(s + ["0123456789"[d]]) && NumberOf(s + ["0123456789"[d]]) == NumberOf(s) * 10 + d
  {
    assert (s + ["0123456789"[d]])[..|s|] == s;
  }

  /** The line reaches the node's shell as seven words, the last of them exactly the command. */
  lemma ExecCarriesCommand(vmid: int, command: string)
    ensures Shell(ExecLine(vmid, command)) ==
      Tokens([Word("pct"), Word("exec"), Word(Decimal(vmid)), Word("--"), Word("bash"), Word("-c"), Word(command)])
  {
    hide Read, Render, MeantWord, Decimal;
    DecimalIsSafe(vmid);
    var line := [[Bare("pct")], [Bare("exec")], [Bare(Decimal(vmid))], [Bare("--")], [Bare("bash")], [Bare("-c")], [Enclosed(command)]];
    forall p: Piece ensures MeantWord([p]) == p.text { OnePiece(p); }
    RenderedLineIsRead(line);
  }

  /** Two shell levels: a command line whose values are quoted survives the node's shell and the container's. */
  lemma TwoLevels(vmid: int, line: seq<seq<Piece>>)
    requires PlainLine(line)
    ensures var outer := Shell(ExecLine(vmid, Render(line)));
      outer.Tokens? && |outer.tokens| == 7 && outer.tokens[6].Word?
      && Shell(outer.tokens[6].text) == Tokens(Meant(line))
  {
    ExecCarriesCommand(vmid, Render(line));
    RenderedLineIsRead(line);
  }

  lemma PathIsPlain(root: string, vmid: int, dir: string)
    requires Safe(dir)
    ensures PlainWord(MediaPath(root, vmid, dir)) && MeantWord(MediaPath(root, vmid, dir)) == root + ("/" + Decimal(vmid) + dir)
  {
    DecimalIsSafe(vmid);
    OnePiece(Bare("/" + Decimal(vmid) + dir));
    assert MediaPath(root, vmid, dir)[1..] == [Bare("/" + Decimal(vmid) + dir)];
  }

  lemma MountPointIsPlain(root: string, app: string, vmid: int, dir: string)
    requires Safe(dir)
    ensures PlainWord(MountPoint(root, app, vmid, dir))
    ensures MeantWord(MountPoint(root, app, vmid, dir)) == root + ("/" + Decimal(vmid) + (dir + ",mp=") + (app + ("/content" + dir)))
  {
    PathIsPlain(root, vmid, dir + ",mp=");
    var path, tail := "/" + Decimal(vmid) + (dir + ",mp="), "/content" + dir;
    FourPieces(Quoted(root), Bare(path), Quoted(app), Bare(tail));
    assert MountPoint(root, app, vmid, dir) == [Quoted(root), Bare(path), Quoted(app), Bare(tail)];
    assert PlainPiece(MediaPath(root, vmid, dir + ",mp=")[1]);
    assert Safe("/content");
  }

  lemma FourPieces(p: Piece, q: Piece, r: Piece, s: Piece)
    ensures MeantWord([p, q, r, s]) == p.text + (q.text + (r.text + s.text))
  {
    assert [p, q, r, s][1..] == [q, r, s] && [q, r, s][1..] == [r, s] && [r, s][1..] == [s];
    OnePiece(s);
    assert MeantWord([r, s]) == r.text + s.text;
    assert MeantWord([q, r, s]) == q.text + (r.text + s.text);
  }

  /** Mount points: each value stays inside its word, whatever the configured directories hold. */
  lemma MountLineIsRead(root: string, app: string, vmid: int)
    ensures Shell(MountLine(root, app, vmid)) == Tokens([
      Word("pct"), Word("set"), Word(Decimal(vmid)),
      Word("-mp0"), Word(root + ("/" + Decimal(vmid) + ("/visuals" + ",mp=") + (app + ("/content" + "/visuals")))),
      Word("-mp1"), Word(root + ("/" + Decimal(vmid) + ("/music" + ",mp=") + (app + ("/content" + "/music"))))])
  {
    hide Read, Render, MeantWord, Decimal, MountPoint;
    DecimalIsSafe(vmid);
    MountPointIsPlain(root, app, vmid, "/visuals");
    MountPointIsPlain(root, app, vmid, "/music");
    forall p: Piece ensures MeantWord([p]) == p.text { OnePiece(p); }
    var line := [[Bare("pct")], [Bare("set")], [Bare(Decimal(vmid))],
      [Bare("-mp0")], MountPoint(root, app, vmid, "/visuals"), [Bare("-mp1")], MountPoint(root, app, vmid, "/music")];
    RenderedLineIsRead(line);
  }

  /** The directory line is two simple commands, the second run only after the first. */
  lemma MkdirLineIsRead(root: string, vmid: int)
    ensures var visuals, music := Word(root + ("/" + Decimal(vmid) + "/visuals")), Word(root + ("/" + Decimal(vmid) + "/music"));
      Shell(MkdirLine(root, vmid)) == Tokens([Word("mkdir"), Word("-p"), visuals, music, AndIf, Word("chmod"), Word("777"), visuals, music])
  {
    hide Read, Render, MeantWord, Decimal, MediaPath;
    PathIsPlain(root, vmid, "/visuals");
    PathIsPlain(root, vmid, "/music");
    forall p: Piece ensures MeantWord([p]) == p.text { OnePiece(p); }
    var dirs := [MediaPath(root, vmid, "/visuals"), MediaPath(root, vmid, "/music")];
    var first, second := [[Bare("mkdir")], [Bare("-p")]] + dirs, [[Bare("chmod")], [Bare("777")]] + dirs;
    TwoCommands(first, second);
  }

  /** Two lines joined by `&&`. */
  lemma TwoCommands(first: seq<seq<Piece>>, second: seq<seq<Piece>>)
    requires first != [] && second != [] && PlainLine(first) && PlainLine(second)
    ensures Shell(Render(first) + " && " + Render(second)) == Tokens(Meant(first) + [AndIf] + Meant(second))
  {
    hide Read, Render, Meant, PlainLine;
    Regroup(Render(first), " && ", Render(second));
    LineIsRead(first, " && " + Render(second), []);
    assert [] + Meant(first) == Meant(first);
    ThenNext(Render(second), Meant(first));
    LineIsRead(second, "", Meant(first) + [AndIf]);
    assert Render(second) + "" == Render(second);
    LineEnds(Meant(first) + [AndIf] + Meant(second));
  }

  lemma LineEnds(done: seq<Token>)
    ensures Read("", done, Blank) == Tokens(done)
  {
  }

  lemma ThenNext(rest: string, done: seq<Token>)
    ensures Read(" && " + rest, done, Blank) == Read(rest, done + [AndIf], Blank)
  {
    assert (" && " + rest)[1..] == "&& " + rest;
    assert ("&& " + rest)[2..] == " " + rest;
    SkipBlank(rest, done + [AndIf]);
  }
}
