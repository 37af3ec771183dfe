/** Command lines: classification, port and address arguments, and the tests that the client makes
  * on a line before it sends it.
  */
module Parser {
  import opened Prelude
  import opened Text

  datatype CmdKind = CmdTool | CmdSystem | CmdSpecial | CmdPassthrough | CmdEmpty

  datatype Cmd = Cmd(kind: CmdKind, verb: string, args: seq<string>, raw: string)

  const TOOL_VERBS: set<string> :=
    {"open", "close", "kill", "use", "list", "info", "log", "fwd", "proxy", "help", "exit", "clear", "send", "read"}

  /** Parse; `lower` lower-cases one character. */
  function Parse(lower: char -> char, line: string, sessionMode: bool): Cmd
  {
    var trimmed := TrimSpace(line);
    if trimmed == "" then Cmd(CmdEmpty, "", [], trimmed)
    else if trimmed[0] == '!' then Cmd(CmdSystem, "", [trimmed[1..]], trimmed)
    else
      TrimSpaceTrims(line);
      FirstWord(trimmed);
      var parts := Fields(trimmed);
      var verb := ToLower(lower, parts[0]);
      if trimmed[0] == '+' then Cmd(CmdSpecial, verb, [], trimmed)
      else if verb in TOOL_VERBS then Cmd(CmdTool, verb, parts[1..], trimmed)
      else if sessionMode then Cmd(CmdPassthrough, "", [], trimmed)
      else Cmd(CmdTool, verb, parts[1..], trimmed)
  }

  // ----- typing through the client -----------------------------------------------------------

  /** What the client sends for a menu line, and what the server's reader makes of it. */
  function Received(line: string): string
  {
    TrimRight(TrimSpace(line), IsBreak)
  }

  /** The client's test for `use` on the trimmed line. */
  predicate ClientSeesUse(lower: char -> char, trimmed: string)
  {
    var fields := Fields(trimmed);
    |fields| > 0 && ToLower(lower, fields[0]) == "use"
  }

  /** The server's test for `use`. */
  predicate IsUse(cmd: Cmd)
  {
    cmd.kind.CmdTool? && cmd.verb == "use"
  }

  /** The client's test for leaving the program, on the whole trimmed line. */
  predicate ClientSeesExit(lower: char -> char, trimmed: string)
  {
    ToLower(lower, trimmed) == "exit" || ToLower(lower, trimmed) == "+exit"
  }

  /** The server's test for leaving the program. */
  predicate IsExit(cmd: Cmd)
  {
    || (cmd.kind.CmdSpecial? && (cmd.verb == "+exit" || cmd.verb == "exit"))
    || (cmd.kind.CmdTool? && cmd.verb == "exit")
  }

  // ----- what a line parses to ---------------------------------------------------------------

  /** A blank line. */
  lemma ParseBlank(lower: char -> char, line: string, sessionMode: bool)
    requires AllSpace(line)
    ensures Parse(lower, line, sessionMode) == Cmd(CmdEmpty, "", [], "")
  {
    TrimBlank(line);
  }

  /** A local command: one argument, all that follows the `!` but the margin. */
  lemma ParseSystem(lower: char -> char, lead: string, cmd: string, trail: string, sessionMode: bool)
    requires AllSpace(lead) && AllSpace(trail) && (cmd == "" || !IsSpace(cmd[|cmd| - 1]))
    ensures Parse(lower, lead + ("!" + cmd) + trail, sessionMode) == Cmd(CmdSystem, "", [cmd], "!" + cmd)
  {
    TrimMargins(lead, "!" + cmd, trail);
    assert ("!" + cmd)[1..] == cmd;
  }

  lemma WordsTrimmed(lead: string, words: seq<string>, gaps: seq<string>)
    requires AllSpace(lead) && |gaps| == |words| > 0 && AreWords(words) && AreGaps(gaps)
    ensures var raw := Spread(words, gaps[|gaps| - 1 := ""]);
      TrimSpace(lead + Spread(words, gaps)) == raw && raw != "" && raw[0] == words[0][0] && Fields(raw) == words
  {
    var last := |gaps| - 1;
    var raw := Spread(words, gaps[last := ""]);
    SpreadEnds(words, gaps);
    assert lead + Spread(words, gaps) == lead + raw + gaps[last];
    TrimMargins(lead, raw, gaps[last]);
    FieldsSpread("", words, gaps[last := ""]);
    assert "" + raw == raw;
  }

  lemma ParseTrimmed(lower: char -> char, line: string, raw: string, words: seq<string>, sessionMode: bool)
    requires TrimSpace(line) == raw && raw != "" && raw[0] != '!' && words != [] && Fields(raw) == words
    ensures var verb := ToLower(lower, words[0]);
      Parse(lower, line, sessionMode) ==
        if raw[0] == '+' then Cmd(CmdSpecial, verb, [], raw)
        else if sessionMode && verb !in TOOL_VERBS then Cmd(CmdPassthrough, "", [], raw)
        else Cmd(CmdTool, verb, words[1..], raw)
  {
  }

  /** A line of words, with any white space between and around them: the first, lower-cased, is the
    * verb, and the others, as they are, are the arguments; a first word with `+` takes none, and an
    * unknown one in session mode leaves the line as it is, without its margin. */
  lemma ParseWords(lower: char -> char, lead: string, words: seq<string>, gaps: seq<string>, sessionMode: bool)
    requires AllSpace(lead) && |gaps| == |words| > 0 && AreWords(words) && AreGaps(gaps) && words[0][0] != '!'
    ensures var verb := ToLower(lower, words[0]);
      var raw := Spread(words, gaps[|gaps| - 1 := ""]);
      Parse(lower, lead + Spread(words, gaps), sessionMode) ==
        if words[0][0] == '+' then Cmd(CmdSpecial, verb, [], raw)
        else if sessionMode && verb !in TOOL_VERBS then Cmd(CmdPassthrough, "", [], raw)
        else Cmd(CmdTool, verb, words[1..], raw)
  {
    WordsTrimmed(lead, words, gaps);
    ParseTrimmed(lower, lead + Spread(words, gaps), Spread(words, gaps[|gaps| - 1 := ""]), words, sessionMode);
  }

  // ----- through the client ------------------------------------------------------------------

  /** Trimming first changes nothing, in either mode. */
  lemma ParseIgnoresMargins(lower: char -> char, line: string, sessionMode: bool)
    ensures Parse(lower, TrimSpace(line), sessionMode) == Parse(lower, line, sessionMode)
  {
    TrimSpaceTrims(line);
    TrimmedStays(TrimSpace(line));
  }

  lemma WordHead(lower: char -> char, s: string)
    requires LowerLaw(lower) && Trimmed(s) && s != ""
    ensures Fields(s) != [] && Fields(s)[0] != ""
    ensures s[0] == '!' || s[0] == '+' ==> ToLower(lower, Fields(s)[0])[0] == s[0]
    ensures s[0] != '!' && s[0] != '+' ==> ToLower(lower, Fields(s)[0])[0] !in {'!', '+'}
  {
    FirstWord(s);
    assert Fields(s)[0][0] == s[0];
  }

  /** Typing through the client refines typing locally: a non-blank menu line parses to the same
    * command on the server as the raw line does in the console, and the client waits for a session
    * start exactly when the server takes the line for `use`. */
  lemma TypingRefines(lower: char -> char, line: string)
    requires LowerLaw(lower) && TrimSpace(line) != ""
    ensures Received(line) == TrimSpace(line)
    ensures Parse(lower, Received(line), false) == Parse(lower, line, false)
    ensures !Parse(lower, line, false).kind.CmdEmpty? && !Parse(lower, line, false).kind.CmdPassthrough?
    ensures ClientSeesUse(lower, TrimSpace(line)) <==> IsUse(Parse(lower, line, false))
  {
    ParseIgnoresMargins(lower, line, false);
    TrimSpaceTrims(line);
    TrimmedStays(TrimSpace(line));
    WordHead(lower, TrimSpace(line));
  }

  /** The exit tests agree exactly on lines of one word; after "exit now" the server says goodbye
    * and the client stays. */
  lemma ExitTestsAgreeOnOneWord(lower: char -> char, line: string)
    requires LowerLaw(lower) && TrimSpace(line) != ""
    ensures var t := TrimSpace(line);
      ClientSeesExit(lower, t) <==> IsExit(Parse(lower, line, false)) && |Fields(t)| == 1
  {
    var t := TrimSpace(line);
    TrimSpaceTrims(line);
    FirstWord(t);
    WordHead(lower, t);
    if ClientSeesExit(lower, t) {
      forall i | 0 <= i < |t|
        ensures !IsSpace(t[i])
      {
        assert ToLower(lower, t)[i] == lower(t[i]);
        assert !IsSpace(ToLower(lower, t)[i]);
      }
    }
  }

  // ----- session mode ------------------------------------------------------------------------

  /** The words that end session mode. */
  predicate IsDetach(word: string)
  {
    word == "+back" || word == "+bg" || word == "+background" || word == "+exit" || word == "exit"
  }

  /** What the client sends for a session line: a blank one becomes a line break. */
  function SessionLine(line: string): string
  {
    if TrimSpace(line) == "" then "\n" else TrimSpace(line)
  }

  /** What the server's reader makes of it. */
  function SessionReceived(line: string): string
  {
    TrimRight(SessionLine(line), IsBreak)
  }

  /** Both sides take the same session lines for detach words. */
  lemma DetachTestsAgree(line: string)
    ensures TrimSpace(SessionReceived(line)) == TrimSpace(SessionLine(line)) == TrimSpace(line)
    ensures SessionReceived(line) == TrimSpace(line)
  {
    TrimSpaceTrims(line);
    TrimmedStays(TrimSpace(line));
    assert TrimRight("\n", IsBreak) == TrimRight("", IsBreak) == "";
    assert TrimLeft("\n", IsSpace) == TrimLeft("", IsSpace) == "";
  }

  // ----- ports and addresses -----------------------------------------------------------------

  datatype PortIdx = PortIdx(port: int, idx: int) | BadPort(text: string) | BadIndex(text: string)

  function ParsePortIdx(s: string): PortIdx
  {
    var parts := SplitN(s, ':', 2);
    match Atoi(parts[0])
    case None => BadPort(parts[0])
    case Some(port) =>
      if |parts| == 2 then
        match Atoi(parts[1])
        case None => BadIndex(parts[1])
        case Some(idx) => PortIdx(port, idx)
      else PortIdx(port, 0)
  }

  predicate IsInt(n: int)
  {
    MIN_INT <= n <= MAX_INT
  }

  /** A target is accepted exactly if what stands before the first colon, and what stands behind it if
    * there is one, are numbers; otherwise the part that is not is reported. */
  lemma PortIdxExactly(s: string)
    ensures var i := Find(s, ':');
      ParsePortIdx(s) ==
        if Atoi(s[..i]).None? then BadPort(s[..i])
        else if i == |s| then PortIdx(Atoi(s[..i]).value, 0)
        else if Atoi(s[i + 1..]).None? then BadIndex(s[i + 1..])
        else PortIdx(Atoi(s[..i]).value, Atoi(s[i + 1..]).value)
  {
    var i := Find(s, ':');
    if i < |s| {
      assert SplitN(s[i + 1..], ':', 1) == [s[i + 1..]];
    } else {
      assert s[..i] == s;
    }
  }

  /** ParsePortIdx undoes printing "port:idx" and "port". */
  lemma PortIdxRoundTrip(port: int, idx: int)
    requires IsInt(port) && IsInt(idx)
    ensures ParsePortIdx(Itoa(port) + ":" + Itoa(idx)) == PortIdx(port, idx)
    ensures ParsePortIdx(Itoa(port)) == PortIdx(port, 0)
  {
    AtoiItoa(port);
    AtoiItoa(idx);
    SplitHead(Itoa(port), ':', Itoa(idx), 2);
    assert SplitN(Itoa(idx), ':', 1) == [Itoa(idx)];
    assert Find(Itoa(port), ':') == |Itoa(port)|;
  }

  datatype Remote = Remote(host: string, port: int) | NoColon | BadRemotePort

  function ParseRemote(s: string): Remote
  {
    var i := FindLast(s, ':');
    if i == 0 then NoColon
    else
      var host := if s[..i - 1] == "" then "127.0.0.1" else s[..i - 1];
      match Atoi(s[i..])
      case None => BadRemotePort
      case Some(port) => Remote(host, port)
  }

  /** An address is accepted exactly if it has a colon and a number behind the last. */
  lemma RemoteExactly(host: string, tail: string)
    requires forall i :: 0 <= i < |tail| ==> tail[i] != ':'
    ensures ParseRemote(tail) == NoColon
    ensures ParseRemote(host + ":" + tail) ==
      match Atoi(tail)
      case None => BadRemotePort
      case Some(port) => Remote(if host == "" then "127.0.0.1" else host, port)
  {
    LastColon(host, tail);
    assert FindLast(tail, ':') == 0;
  }

  /** Rule.RemoteAddr. */
  function RemoteAddr(host: string, port: int): string
  {
    host + ":" + Itoa(port)
  }

  lemma LastColon(host: string, tail: string)
    requires forall i :: 0 <= i < |tail| ==> tail[i] != ':'
    ensures var s := host + ":" + tail;
      FindLast(s, ':') == |host| + 1 && s[..|host|] == host && s[|host| + 1..] == tail
  {
    var s := host + ":" + tail;
    assert s[|host|] == ':';
    assert forall j :: |host| < j < |s| ==> s[j] == tail[j - |host| - 1];
  }

  /** ParseRemote undoes RemoteAddr for every host, colons included, except the empty one, which it
    * reads as the loopback address. */
  lemma RemoteRoundTrip(host: string, port: int)
    requires IsInt(port)
    ensures ParseRemote(RemoteAddr(host, port)) == Remote(if host == "" then "127.0.0.1" else host, port)
    ensures ParseRemote(RemoteAddr(host, port)) == Remote(host, port) <==> host != ""
  {
    AtoiItoa(port);
    LastColon(host, Itoa(port));
  }

  /** The payload of the session-start frame. */
  function StartInfo(port: int, idx: int, remote: string): string
  {
    Itoa(port) + ":" + Itoa(idx) + ":" + remote
  }

  lemma SplitThree(a: string, b: string, c: string)
    requires forall i :: 0 <= i < |a| ==> a[i] != ':'
    requires forall i :: 0 <= i < |b| ==> b[i] != ':'
    ensures SplitN(a + ":" + b + ":" + c, ':', 3) == [a, b, c]
  {
    SplitTwo(b, c);
    SplitHead(a, ':', b + ":" + c, 3);
    Regroup(a, ":", b, ":", c);
  }

  lemma SplitTwo(b: string, c: string)
    requires forall i :: 0 <= i < |b| ==> b[i] != ':'
    ensures SplitN(b + ":" + c, ':', 2) == [b, c]
  {
    SplitHead(b, ':', c, 2);
    assert SplitN(c, ':', 1) == [c];
  }

  lemma Regroup(a: string, x: string, b: string, y: string, c: string)
    ensures a + x + b + y + c == a + x + (b + y + c)
  {
  }

  /** The client's three-way split recovers all three parts, colons in the address or not. */
  lemma StartInfoSplits(port: int, idx: int, remote: string)
    ensures SplitN(StartInfo(port, idx, remote), ':', 3) == [Itoa(port), Itoa(idx), remote]
  {
    AtoiItoa(port);
    AtoiItoa(idx);
    SplitThree(Itoa(port), Itoa(idx), remote);
  }
}
