/** What one line typed in session mode does, in the console and through client and server. */
module SessionLines {
  import opened Text
  import opened Parser
  import opened Protocol

  datatype Effect =
    | Written(text: string)  // bytes for the session
    | Shell(cmd: string)     // run locally
    | Leave(word: string)    // end of session mode, by this word
    | Ignored

  /** The words that end session mode in the console. */
  predicate LeavesConsole(word: string)
  {
    word == "+back" || word == "+bg" || word == "+background" || word == "+exit"
  }

  /** enterSession on a live session. */
  function ConsoleEffect(lower: char -> char, line: string): Effect
  {
    var cmd := Parse(lower, line, true);
    match cmd.kind
    case CmdSpecial => if LeavesConsole(cmd.verb) then Leave(cmd.verb) else Ignored
    case CmdSystem => Shell(TrimSpace(line)[1..])
    case CmdEmpty => Written("\n")
    case _ => Written(line + "\n")
  }

  /** The client's frame, the server's reader and the passthrough loop on a live session. */
  function ServerEffect(line: string): Effect
  {
    var received := SessionReceived(line);
    match AfterSessionLine(received, false, "")
    case Detaching(_, _) => Leave(TrimSpace(received))
    case Echoing(_) => Shell(received[1..])
    case _ => Written(received + "\n")
  }

  /** The condition: a blank line; a local command that is not empty; a word that ends session mode
    * on both sides, typed exactly; or anything else but `exit`, typed without a margin. */
  predicate SameOnBothSides(line: string)
  {
    var word := TrimSpace(line);
    if word == "" then true
    else if word[0] == '!' then word != "!"
    else if word[0] == '+' then LeavesConsole(word)
    else Trimmed(line) && word != "exit"
  }

  // ----- the two sides, by the trimmed line --------------------------------------------------

  lemma ServerByWord(line: string)
    ensures var word := TrimSpace(line);
      ServerEffect(line) ==
        if IsDetach(word) then Leave(word)
        else if |word| > 1 && word[0] == '!' then Shell(word[1..])
        else Written(word + "\n")
  {
    DetachTestsAgree(line);
    TrimSpaceTrims(line);
    TrimmedStays(TrimSpace(line));
  }

  lemma ConsoleByWord(lower: char -> char, line: string)
    requires LowerLaw(lower)
    ensures var word := TrimSpace(line);
      && (word == "" ==> ConsoleEffect(lower, line) == Written("\n"))
      && (word != "" && word[0] == '!' ==> ConsoleEffect(lower, line) == Shell(word[1..]))
      && (word != "" && word[0] == '+' ==> !ConsoleEffect(lower, line).Written? && !ConsoleEffect(lower, line).Shell?)
      && (word != "" && word[0] !in {'!', '+'} ==> ConsoleEffect(lower, line) == Written(line + "\n"))
  {
  }

  predicate LowerCased(word: string)
  {
    forall i :: 0 <= i < |word| ==> word[i] == '+' || 'a' <= word[i] <= 'z'
  }

  lemma WordsLowerCased(word: string)
    requires LeavesConsole(word)
    ensures LowerCased(word)
  {
    if word == "+back" {
    } else if word == "+bg" {
    } else if word == "+background" {
    } else {
    }
  }

  /** Such a word is its own lower case and one field. */
  lemma OneWord(lower: char -> char, word: string)
    requires LowerLaw(lower) && word != "" && LowerCased(word)
    ensures ToLower(lower, word) == word && Fields(word) != [] && Fields(word)[0] == word
  {
    assert forall i :: 0 <= i < |word| ==> !IsSpace(word[i]);
    FirstWord(word);
  }

  lemma ConsoleLeaves(lower: char -> char, line: string)
    requires LowerLaw(lower) && LeavesConsole(TrimSpace(line))
    ensures ConsoleEffect(lower, line) == Leave(TrimSpace(line))
  {
    WordsLowerCased(TrimSpace(line));
    OneWord(lower, TrimSpace(line));
  }

  lemma SameLine(a: string, b: string)
    ensures a + "\n" == b + "\n" <==> a == b
  {
    if a + "\n" == b + "\n" {
      assert (a + "\n")[..|a|] == a && (b + "\n")[..|b|] == b;
      assert |a| == |b|;
    }
  }

  lemma TrimmedExactly(line: string)
    ensures TrimSpace(line) == line <==> Trimmed(line)
  {
    TrimSpaceTrims(line);
    if Trimmed(line) {
      TrimmedStays(line);
    }
  }

  // ----- where they agree --------------------------------------------------------------------

  /** The console and the server do the same with a line typed in session mode if and only if the
    * condition holds; so `exit`, a lone `!`, `+foo`, `+back now` and a line with a margin differ. */
  lemma PassthroughAgreesExactly(lower: char -> char, line: string)
    requires LowerLaw(lower)
    ensures ConsoleEffect(lower, line) == ServerEffect(line) <==> SameOnBothSides(line)
  {
    var word := TrimSpace(line);
    ServerByWord(line);
    ConsoleByWord(lower, line);
    SameLine(word, line);
    TrimmedExactly(line);
    if LeavesConsole(word) {
      ConsoleLeaves(lower, line);
    }
  }

  /** The bytes that an effect puts on the session. */
  function BytesOf(e: Effect): string
  {
    if e.Written? then e.text else ""
  }

  /** So do the bytes for the session: they differ on just the same lines. */
  lemma BytesAgreeExactly(lower: char -> char, line: string)
    requires LowerLaw(lower)
    ensures BytesOf(ConsoleEffect(lower, line)) == BytesOf(ServerEffect(line)) <==> SameOnBothSides(line)
  {
    var word := TrimSpace(line);
    PassthroughAgreesExactly(lower, line);
    ServerByWord(line);
    ConsoleByWord(lower, line);
    SameLine(word, line);
    TrimmedExactly(line);
  }
}
