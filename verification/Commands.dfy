/** Commands: a client writes them as lines, the server splits them into fields (server.go, client.go). */
module Commands {
  import opened Numbers
  import opened Results
  import opened Text
  import opened Resp

  datatype Command = Command(name: string, args: seq<string>)

  /** unicode.ToUpper where its result is an ASCII letter, as in all the verbs; other runes stay as they are. */
  function Upper(c: char): char {
    if 'a' <= c <= 'z' then c - 'a' + 'A'
    else if c as int == 0x131 then 'I'
    else if c as int == 0x17F then 'S'
    else c
  }

  function ToUpper(s: string): (r: string)
    ensures |r| == |s|
  {
    seq(|s|, i requires 0 <= i < |s| => Upper(s[i]))
  }

  /** parseCommand: the first field in upper case, the others as they are; None for a line of blanks. */
  function ParseCommand(line: string): Option<Command> {
    var parts := Fields(line);
    if parts == [] then None else Some(Command(ToUpper(parts[0]), parts[1..]))
  }

  /** The topic and message handleEnqueue takes from its arguments; None is its usage error. */
  function EnqueueRequest(args: seq<string>): Option<(string, string)> {
    if |args| < 2 then None else Some((args[0], JoinBlank(args[1..])))
  }

  /** What the server enqueues on reading one line of its input; None when that line is no ENQUEUE. */
  function Received(input: string): Option<(string, string)> {
    match NextLine(input)
    case None => None
    case Some((text, _)) =>
      match ParseCommand(TrimSpace(text))
      case None => None
      case Some(command) => if command.name == "ENQUEUE" then EnqueueRequest(command.args) else None
  }

  /** What Client.Enqueue writes. */
  function EnqueueLine(topic: string, message: string): string {
    "ENQUEUE " + topic + " " + message + "\r\n"
  }

  /** Whatever arrives is words joined by single blanks, so it holds no newline and prints as one RESP line. */
  lemma ReceivedIsSingleSpaced(input: string)
    requires Received(input).Some?
    ensures IsWord(Received(input).value.0)
    ensures SingleSpaced(Received(input).value.1) && '\n' !in Received(input).value.1
  {
    var text := NextLine(input).value.0;
    var parts := Fields(TrimSpace(text));
    JoinIsSingleSpaced(parts[2..]);
    assert parts[1..][1..] == parts[2..];
    var message := Received(input).value.1;
    assert message == JoinBlank(parts[2..]);
    assert forall i | 0 <= i < |message| && IsSpace(message[i]) :: message[i] == ' ';
  }

  /** A command line of three parts splits into its verb, its topic and the fields of the rest. */
  lemma FieldsOfCommand(verb: string, topic: string, message: string)
    requires IsWord(verb) && IsWord(topic)
    ensures Fields(verb + " " + topic + " " + message) == [verb, topic] + Fields(message)
  {
    hide Fields;
    assert verb + " " + topic + " " + message == verb + [' '] + (topic + [' '] + message);
    FieldsOfWordThen(verb, ' ', topic + [' '] + message);
    FieldsOfWordThen(topic, ' ', message);
    assert [verb] + ([topic] + Fields(message)) == [verb, topic] + Fields(message);
  }

  lemma SingleSpacedHasNoNewline(s: string)
    requires SingleSpaced(s)
    ensures '\n' !in s
  {
    assert forall i | 0 <= i < |s| && IsSpace(s[i]) :: s[i] == ' ';
  }

  // ---------- The verb ----------

  /** c is the capital letter or one of the runes that have it as their upper case: its small letter, ı and ſ. */
  predicate IsLetter(c: char, capital: char) {
    || c == capital
    || c as int == capital as int + 32
    || (capital == 'I' && c as int == 0x131)
    || (capital == 'S' && c as int == 0x17F)
  }

  /** The word is the verb, each letter in either case. */
  predicate Spells(word: string, verb: string) {
    |word| == |verb| && forall i | 0 <= i < |word| :: IsLetter(word[i], verb[i])
  }

  /** The upper case of a word is a verb, all of capital letters, exactly when the word spells it. */
  lemma UpperSpells(word: string, verb: string)
    requires forall i | 0 <= i < |verb| :: 'A' <= verb[i] <= 'Z'
    ensures ToUpper(word) == verb <==> Spells(word, verb)
  {
    if |word| == |verb| {
      forall i | 0 <= i < |word|
        ensures Upper(word[i]) == verb[i] <==> IsLetter(word[i], verb[i])
      {
        UpperIsLetter(word[i], verb[i]);
      }
      assert forall i | 0 <= i < |word| :: ToUpper(word)[i] == Upper(word[i]);
    }
  }

  lemma UpperIsLetter(c: char, capital: char)
    requires 'A' <= capital <= 'Z'
    ensures Upper(c) == capital <==> IsLetter(c, capital)
  {
  }

  /**
   * What the server takes for an ENQUEUE, exactly: a line with at least three fields whose first spells the
   * verb in any case; the second is the topic, and the others joined by blanks are the message.
   */
  lemma ReceivedExactly(input: string)
    ensures Received(input) ==
              match NextLine(input)
              case None => None
              case Some((line, _)) =>
                var words := Fields(line);
                if |words| >= 3 && Spells(words[0], "ENQUEUE") then Some((words[1], JoinBlank(words[2..]))) else None
  {
    if NextLine(input).Some? {
      var line := NextLine(input).value.0;
      FieldsOfTrimSpace(line);
      var words := Fields(line);
      if words != [] {
        UpperSpells(words[0], "ENQUEUE");
        if |words| >= 3 {
          assert words[1..][1..] == words[2..];
        }
      }
      hide Fields, JoinBlank, TrimSpace, Spells;
    }
  }

  /** The bytes of a command line. */
  lemma BytesOfCommand(verb: string, topic: string, message: string)
    ensures ByteLen(verb + " " + topic + " " + message) == ByteLen(verb) + ByteLen(topic) + ByteLen(message) + 2
  {
    hide ByteLen;
    ByteLenJoin(verb + " " + topic + " ", message);
    ByteLenJoin(verb + " " + topic, " ");
    ByteLenJoin(verb + " ", topic);
    ByteLenJoin(verb, " ");
    ByteLenOfAscii(" ");
  }

  /**
   * A command line of a verb, a topic and a message has the server enqueue that message to that topic
   * exactly when the verb is ENQUEUE in any case, the topic one word, the message single-spaced, and the
   * line with its carriage return below the scanner's 65536 bytes; everything else is refused, lost or
   * arrives altered.
   */
  lemma CommandArrivesExactly(verb: string, topic: string, message: string, rest: string)
    requires IsWord(verb)
    ensures Received(verb + " " + topic + " " + message + "\r\n" + rest) == Some((topic, message))
       <==> && Spells(verb, "ENQUEUE") && IsWord(topic) && SingleSpaced(message)
            && ByteLen(verb) + ByteLen(topic) + ByteLen(message) + 3 < 65536
  {
    hide Fields, SingleSpaced, JoinBlank, NextLine, ByteLen, Received, Spells;
    var line := verb + " " + topic + " " + message;
    ReceivedExactly(line + "\r\n" + rest);
    if Received(line + "\r\n" + rest) == Some((topic, message)) {
      ReceivedIsSingleSpaced(line + "\r\n" + rest);
    }
    if IsWord(topic) && SingleSpaced(message) {
      SingleSpacedHasNoNewline(message);
      assert '\n' !in verb && '\n' !in topic;
      assert '\n' !in line;
      LineRoundTrip(line, rest);
      BytesOfCommand(verb, topic, message);
      FieldsOfCommand(verb, topic, message);
      JoinOfFields(message);
      MessageHasFields(message);
      var words := [verb, topic] + Fields(message);
      assert words[2..] == Fields(message);
    }
  }

  lemma MessageHasFields(message: string)
    requires SingleSpaced(message)
    ensures Fields(message) != []
  {
    JoinOfFields(message);
  }

  /** What Client.Enqueue sends, with its verb in capitals. */
  lemma EnqueueArrivesUnchanged(topic: string, message: string, rest: string)
    ensures Received(EnqueueLine(topic, message) + rest) == Some((topic, message))
       <==> IsWord(topic) && SingleSpaced(message) && 10 + ByteLen(topic) + ByteLen(message) < 65536
  {
    VerbFacts();
    VerbLine(topic, message, rest);
    hide SingleSpaced, Received, ByteLen, Spells, IsWord;
    CommandArrivesExactly("ENQUEUE", topic, message, rest);
  }

  lemma VerbFacts()
    ensures IsWord("ENQUEUE") && Spells("ENQUEUE", "ENQUEUE") && ByteLen("ENQUEUE") == 7
  {
    ByteLenOfAscii("ENQUEUE");
  }

  lemma VerbLine(topic: string, message: string, rest: string)
    ensures EnqueueLine(topic, message) + rest == "ENQUEUE" + " " + topic + " " + message + "\r\n" + rest
  {
    assert "ENQUEUE " == "ENQUEUE" + " ";
  }

  /**
   * The white space, rune by rune: between two letters of a message a rune arrives as a blank if it is one
   * of the twenty-five of unicode.IsSpace, the newline excepted, which ends the line, and else as itself.
   */
  lemma WhiteSpaceArrivesAsBlank(c: char, rest: string)
    requires c != '\n'
    ensures Received("ENQUEUE t a" + [c] + "b\r\n" + rest)
         == Some(("t", if c as int in {0x09, 0x0B, 0x0C, 0x0D, 0x20, 0x85, 0xA0, 0x1680, 0x2000, 0x2001, 0x2002, 0x2003,
                                       0x2004, 0x2005, 0x2006, 0x2007, 0x2008, 0x2009, 0x200A, 0x2028, 0x2029, 0x202F,
                                       0x205F, 0x3000}
                       then "a b" else "a" + [c] + "b"))
  {
    var message := "a" + [c] + "b";
    SpaceSet(c);
    ThreeRunes(c);
    VerbFacts();
    VerbLine("t", message, rest);
    hide IsSpace, Fields, JoinBlank, ByteLen, Received, IsWord, Spells;
    MessageArrivesJoined("ENQUEUE", "t", message, rest);
    ThreeRunesLine(c, rest);
  }

  lemma ThreeRunesLine(c: char, rest: string)
    ensures "ENQUEUE t a" + [c] + "b\r\n" + rest == EnqueueLine("t", "a" + [c] + "b") + rest
  {
    assert "ENQUEUE t a" == "ENQUEUE " + "t" + " " + "a" && "b\r\n" == "b" + "\r\n";
  }

  lemma SpaceSet(c: char)
    requires c != '\n'
    ensures IsWord("t") && '\n' !in ("a" + [c] + "b") && ByteLen("t") == 1
    ensures IsSpace(c) <==>
              c as int in {0x09, 0x0B, 0x0C, 0x0D, 0x20, 0x85, 0xA0, 0x1680, 0x2000, 0x2001, 0x2002, 0x2003,
                           0x2004, 0x2005, 0x2006, 0x2007, 0x2008, 0x2009, 0x200A, 0x2028, 0x2029, 0x202F,
                           0x205F, 0x3000}
  {
  }

  /** What arrives of any message that is not blank and goes on one line: its fields, joined by single blanks. */
  lemma MessageArrivesJoined(verb: string, topic: string, message: string, rest: string)
    requires IsWord(verb) && Spells(verb, "ENQUEUE")
    requires IsWord(topic) && '\n' !in message && Fields(message) != []
    requires ByteLen(verb) + ByteLen(topic) + ByteLen(message) + 3 < 65536
    ensures Received(verb + " " + topic + " " + message + "\r\n" + rest)
         == Some((topic, JoinBlank(Fields(message))))
  {
    assert '\n' !in verb && '\n' !in topic;
    hide Fields, ByteLen, NextLine, JoinBlank, Received, Spells, IsWord;
    var line := verb + " " + topic + " " + message;
    assert '\n' !in line;
    BytesOfCommand(verb, topic, message);
    LineRoundTrip(line, rest);
    FieldsOfCommand(verb, topic, message);
    ReceivedExactly(line + "\r\n" + rest);
    var words := [verb, topic] + Fields(message);
    assert words[2..] == Fields(message) && |words| >= 3;
  }

  lemma ThreeRunes(c: char)
    ensures ByteLen("a" + [c] + "b") <= 6
    ensures JoinBlank(Fields("a" + [c] + "b")) == if IsSpace(c) then "a b" else "a" + [c] + "b"
    ensures Fields("a" + [c] + "b") != []
  {
    var message := "a" + [c] + "b";
    ByteLenJoin("a" + [c], "b");
    ByteLenJoin("a", [c]);
    assert ByteLen("a") == 1 && ByteLen("b") == 1 && ByteLen([c]) == Width(c);
    assert IsWord("a") && IsWord("b");
    assert Fields("b") == ["b"] by {
      JoinOfFields("b");
      WordAlone("b");
    }
    if IsSpace(c) {
      FieldsOfWordThen("a", c, "b");
      assert ["a"] + ["b"] == ["a", "b"];
      assert ["a", "b"][1..] == ["b"];
    } else {
      WordAlone(message);
    }
  }

  lemma WordAlone(w: string)
    requires IsWord(w)
    ensures Fields(w) == [w]
  {
    WordRunOfWord(w);
    assert w[..|w|] == w && w[|w|..] == "";
  }

  lemma {:induction false} WordRunOfWord(w: string)
    requires forall i | 0 <= i < |w| :: !IsSpace(w[i])
    ensures WordRun(w) == |w|
  {
    if w != "" {
      WordRunOfWord(w[1..]);
    }
  }

  /** What was received fits a line again. */
  lemma ReceivedIsShort(input: string)
    requires Received(input).Some?
    ensures ByteLen(Received(input).value.1) + 1 < LINE_LIMIT
  {
    hide Fields, JoinBlank, TrimSpace, ByteLen;
    var text := NextLine(input).value.0;
    var parts := Fields(TrimSpace(text));
    FieldsOfTrimSpace(text);
    FieldsAreShorter(text);
    LineIsShort(input);
    assert parts == [parts[0]] + ([parts[1]] + parts[2..]);
    JoinBytes(parts[0], [parts[1]] + parts[2..]);
    JoinBytes(parts[1], parts[2..]);
    assert parts[1..][1..] == parts[2..];
    assert Received(input).value.1 == JoinBlank(parts[2..]);
  }

  lemma LineIsShort(input: string)
    requires NextLine(input).Some?
    ensures ByteLen(NextLine(input).value.0) < LINE_LIMIT
  {
    var line := input[..LineEnd(input)];
    if line != "" && line[|line| - 1] == '\r' {
      assert line == line[..|line| - 1] + [line[|line| - 1]];
      ByteLenJoin(line[..|line| - 1], [line[|line| - 1]]);
    }
  }

  /** Messages that came in as commands go out whole: no LISTEN reply made of them can be misread. */
  lemma ReceivedMessagesAreListed(inputs: seq<string>, messages: seq<string>, rest: string)
    requires |inputs| == |messages| < TWO_63
    requires forall i | 0 <= i < |inputs| :: Received(inputs[i]).Some? && Received(inputs[i]).value.1 == messages[i]
    ensures var reply := Array(BulkElements(messages));
            && ReadReply(Print(reply) + rest) == (Expected(reply), rest)
            && Unlist(Listing(messages, 0), 0) == Some(messages)
            && (messages != [] ==> Expected(reply) == Shown(Listing(messages, 0)))
  {
    hide Received, ReadReply, Print, Listing, Unlist, ByteLen;
    forall i | 0 <= i < |messages|
      ensures FitsLine(0, messages[i])
    {
      ReceivedIsSingleSpaced(inputs[i]);
      ReceivedIsShort(inputs[i]);
    }
    var es := BulkElements(messages);
    ReplyRoundTrip(Array(es), rest);
    ListingKeepsTexts(messages, 0);
    assert Texts(es) == messages;
  }
}
