/** Replies: the handlers of internal/network/server.go print them, internal/network/client.go reads them. */
module Resp {
  import opened Numbers
  import opened Results
  import opened Text

  datatype Element = BulkElement(text: string) | IntElement(n: Int64)

  datatype Reply =
    | Simple(text: string)
    | Error(text: string)
    | Integer(n: Int64)
    | Bulk(text: string)
    | Array(elements: seq<Element>)

  // ---------- The wire format ----------

  const CRLF := "\r\n"

  /** A Bulk String of the RESP2 specification, its length in bytes. */
  function PrintBulk(text: string): string {
    "$" + Decimal(ByteLen(text)) + CRLF + (text + CRLF)
  }

  function PrintElement(e: Element): string {
    match e
    case BulkElement(text) => PrintBulk(text)
    case IntElement(n) => ":" + Decimal(n) + CRLF
  }

  function PrintElements(es: seq<Element>): string {
    if es == [] then "" else PrintElement(es[0]) + PrintElements(es[1..])
  }

  function Print(r: Reply): string {
    match r
    case Simple(text) => "+" + text + CRLF
    case Error(text) => "-" + text + CRLF
    case Integer(n) => ":" + Decimal(n) + CRLF
    case Bulk(text) => PrintBulk(text)
    case Array(es) => "*" + Decimal(|es|) + CRLF + PrintElements(es)
  }

  function PrintAll(rs: seq<Reply>): string {
    if rs == [] then "" else Print(rs[0]) + PrintAll(rs[1..])
  }

  function BulkElements(texts: seq<string>): (es: seq<Element>)
    ensures |es| == |texts| && forall i | 0 <= i < |texts| :: es[i] == BulkElement(texts[i])
  {
    seq(|texts|, i requires 0 <= i < |texts| => BulkElement(texts[i]))
  }

  lemma NoElements()
    ensures PrintElements([]) == ""
  {
  }

  lemma ElementThenRest(e: Element, es: seq<Element>)
    ensures PrintElements([e] + es) == PrintElement(e) + PrintElements(es)
  {
    assert ([e] + es)[1..] == es;
  }

  lemma {:induction false} PrintElementsAppend(es: seq<Element>, e: Element)
    ensures PrintElements(es + [e]) == PrintElements(es) + PrintElement(e)
  {
    hide PrintElements, PrintElement;
    NoElements();
    if es == [] {
      ElementThenRest(e, []);
      assert [] + [e] == [e] + [];
    } else {
      var x, rest := es[0], es[1..];
      PrintElementsAppend(rest, e);
      ElementThenRest(x, rest);
      ElementThenRest(x, rest + [e]);
      assert es == [x] + rest && es + [e] == [x] + (rest + [e]);
    }
  }

  // ---------- The server's handlers ----------

  /** The loop that LISTEN, TOPICS and CONSUMERS share: a header and one Bulk String per text. */
  method BulkArray(texts: seq<string>) returns (response: string)
    ensures response == Print(Array(BulkElements(texts)))
  {
    hide Decimal, ByteLen, PrintElements;
    NoElements();
    var header := "*" + Decimal(|texts|) + "\r\n";
    response := header;
    ghost var es := BulkElements(texts);
    ghost var body := "";
    for i := 0 to |texts|
      invariant response == header + body && body == PrintElements(es[..i])
    {
      PrintElementsAppend(es[..i], es[i]);
      assert es[..i + 1] == es[..i] + [es[i]];
      var element := "$" + Decimal(ByteLen(texts[i])) + "\r\n" + (texts[i] + "\r\n");
      response := response + element;
      body := body + element;
    }
    assert es[..|texts|] == es;
  }

  /** handleListen's reply to a batch of messages. */
  method ListenReply(messages: seq<string>) returns (response: string)
    ensures response == Print(Array(BulkElements(messages)))
  {
    if |messages| == 0 {
      assert Decimal(0) == "0";
      return "*0\r\n";
    }
    response := BulkArray(messages);
  }

  /** A statistic: its name and its number. */
  function Pair(name: string, n: Int64): (es: seq<Element>)
    ensures |es| == 2
  {
    [BulkElement(name), IntElement(n)]
  }

  function PrintPair(length: string, name: string, n: Int64): string {
    "$" + length + "\r\n" + name + "\r\n:" + Decimal(n) + "\r\n"
  }

  lemma PairsPrint(length: string, name: string, n: Int64, rest: seq<Element>)
    requires length == Decimal(ByteLen(name))
    ensures PrintElements(Pair(name, n) + rest) == PrintPair(length, name, n) + PrintElements(rest)
  {
    hide PrintElements, Decimal, ByteLen;
    ElementThenRest(IntElement(n), rest);
    ElementThenRest(BulkElement(name), [IntElement(n)] + rest);
    assert Pair(name, n) + rest == [BulkElement(name)] + ([IntElement(n)] + rest);
    assert PrintBulk(name) + (PrintElement(IntElement(n)) + PrintElements(rest))
        == PrintPair(length, name, n) + PrintElements(rest);
  }

  lemma NameBytes()
    ensures ByteLen("name") == ByteLen("size") == 4 && ByteLen("consumers") == 9 && ByteLen("total_size") == 10
    ensures ByteLen("topic_count") == 11 && ByteLen("message_count") == 13 && ByteLen("total_messages") == 14
  {
    hide ByteLen;
    ByteLenOfAscii("name");
    ByteLenOfAscii("size");
    ByteLenOfAscii("consumers");
    ByteLenOfAscii("total_size");
    ByteLenOfAscii("topic_count");
    ByteLenOfAscii("message_count");
    ByteLenOfAscii("total_messages");
  }

  /** The lengths written into the STATS replies are those of the names they precede. */
  lemma NameLengths()
    ensures Decimal(6) == "6" && Decimal(8) == "8"
    ensures Decimal(ByteLen("name")) == Decimal(ByteLen("size")) == "4"
    ensures Decimal(ByteLen("consumers")) == "9" && Decimal(ByteLen("total_size")) == "10"
    ensures Decimal(ByteLen("topic_count")) == "11" && Decimal(ByteLen("message_count")) == "13"
    ensures Decimal(ByteLen("total_messages")) == "14"
  {
    hide ByteLen;
    NameBytes();
    assert Digits(1) == "1";
    assert Digits(10) == Digits(1) + [Digit(0)];
    assert Digits(11) == Digits(1) + [Digit(1)];
    assert Digits(13) == Digits(1) + [Digit(3)];
    assert Digits(14) == Digits(1) + [Digit(4)];
  }

  lemma Regroup(a: string, b: string, c: string, d: string, e: string)
    ensures a + b + c + d + e == a + (b + (c + (d + (e + ""))))
  {
  }

  /** The elements of a STATS reply for the whole queue. */
  function QueueStats(topicCount: Int64, totalMessages: Int64, totalSize: Int64): seq<Element> {
    Pair("topic_count", topicCount) + (Pair("total_messages", totalMessages) + (Pair("total_size", totalSize) + []))
  }

  /** The elements of a STATS reply for one topic. */
  function TopicStats(name: string, messageCount: Int64, size: Int64, consumers: Int64): seq<Element> {
    [BulkElement("name"), BulkElement(name)]
    + (Pair("message_count", messageCount) + (Pair("size", size) + (Pair("consumers", consumers) + [])))
  }

  /** handleStats without a topic: the lengths in its text are the lengths of its names. */
  method QueueStatsReply(topicCount: Int64, totalMessages: Int64, totalSize: Int64) returns (response: string)
    ensures response == Print(Array(QueueStats(topicCount, totalMessages, totalSize)))
  {
    hide PrintElements, Decimal, ByteLen, PrintPair, Pair;
    QueueStatsPrint(topicCount, totalMessages, totalSize);
    response := "*6\r\n";
    response := response + PrintPair("11", "topic_count", topicCount);
    response := response + PrintPair("14", "total_messages", totalMessages);
    response := response + PrintPair("10", "total_size", totalSize);
  }

  lemma QueueStatsPrint(topicCount: Int64, totalMessages: Int64, totalSize: Int64)
    ensures Print(Array(QueueStats(topicCount, totalMessages, totalSize)))
         == "*6\r\n" + PrintPair("11", "topic_count", topicCount) + PrintPair("14", "total_messages", totalMessages)
          + PrintPair("10", "total_size", totalSize)
  {
    hide PrintElements, Decimal, ByteLen, PrintPair, Pair;
    NameLengths();
    PairsPrint("11", "topic_count", topicCount,
               Pair("total_messages", totalMessages) + (Pair("total_size", totalSize) + []));
    PairsPrint("14", "total_messages", totalMessages, Pair("total_size", totalSize) + []);
    PairsPrint("10", "total_size", totalSize, []);
    NoElements();
    var s1 := PrintPair("11", "topic_count", topicCount);
    var s2 := PrintPair("14", "total_messages", totalMessages);
    var s3 := PrintPair("10", "total_size", totalSize);
    Regroup("*6\r\n", s1, s2, s3, "");
    assert "*6\r\n" + s1 + s2 + s3 + "" == "*6\r\n" + s1 + s2 + s3;
  }

  function NameText(length: string, name: string): string {
    "$" + length + "\r\nname\r\n$" + Decimal(ByteLen(name)) + "\r\n" + name + "\r\n"
  }

  lemma NameFirst(name: string, rest: seq<Element>)
    ensures PrintElements([BulkElement("name"), BulkElement(name)] + rest)
         == NameText(Decimal(ByteLen("name")), name) + PrintElements(rest)
  {
    hide PrintElements, Decimal, ByteLen;
    ElementThenRest(BulkElement(name), rest);
    ElementThenRest(BulkElement("name"), [BulkElement(name)] + rest);
    assert [BulkElement("name"), BulkElement(name)] + rest == [BulkElement("name")] + ([BulkElement(name)] + rest);
    assert PrintBulk("name") + (PrintBulk(name) + PrintElements(rest))
        == NameText(Decimal(ByteLen("name")), name) + PrintElements(rest);
  }

  /** handleStats of one topic. */
  method TopicStatsReply(name: string, messageCount: Int64, size: Int64, consumers: Int64) returns (response: string)
    ensures response == Print(Array(TopicStats(name, messageCount, size, consumers)))
  {
    hide PrintElements, Decimal, ByteLen, PrintPair, NameText, Pair;
    NameLengths();
    NameFirst(name, Pair("message_count", messageCount) + (Pair("size", size) + (Pair("consumers", consumers) + [])));
    PairsPrint("13", "message_count", messageCount, Pair("size", size) + (Pair("consumers", consumers) + []));
    PairsPrint("4", "size", size, Pair("consumers", consumers) + []);
    PairsPrint("9", "consumers", consumers, []);
    NoElements();
    response := "*8\r\n";
    var s0 := NameText("4", name);
    var s1 := PrintPair("13", "message_count", messageCount);
    var s2 := PrintPair("4", "size", size);
    var s3 := PrintPair("9", "consumers", consumers);
    Regroup(response, s0, s1, s2, s3);
    response := response + s0;
    response := response + s1;
    response := response + s2;
    response := response + s3;
  }

  // ---------- The client ----------

  /** What a read ends in: a text, the server's error, a failed read, or an index out of range on an empty line. */
  datatype Outcome = Shown(text: string) | ServerError(text: string) | Failed | Crashed

  /** readBulkString, after its header line. */
  function ReadBulk(header: string, input: string): (r: (Outcome, string))
    requires header != ""
    ensures |r.1| <= |input|
  {
    match ScanDecimal(header[1..])
    case None => (Failed, input)
    case Some(n) =>
      if n == -1 then (Shown("(nil)"), input)
      else
        match NextLine(input)
        case None => (Failed, input)
        case Some((line, rest)) => (Shown(line), rest)
  }

  /** Line i of a listing. */
  function Item(i: nat, text: string): string {
    Decimal(i + 1) + ") " + text + "\n"
  }

  /** readArray's loop from element i on; listing is what was built so far. */
  function ReadElements(input: string, i: nat, length: int, listing: string): (Outcome, string)
    decreases length - i
  {
    if i >= length then (Shown(listing), input)
    else
      match NextLine(input)
      case None => (Failed, input)
      case Some((line, rest)) =>
        if line == "" then (Crashed, rest)
        else if line[0] == '$' then
          var (o, after) := ReadBulk(line, rest);
          if o.Shown? then ReadElements(after, i + 1, length, listing + Item(i, o.text)) else (o, after)
        else if line[0] == ':' then ReadElements(rest, i + 1, length, listing + Item(i, line[1..]))
        else ReadElements(rest, i + 1, length, listing + Item(i, line))
  }

  /** One turn of the loop: either it goes on with one more line of the listing, or the read ends here. */
  lemma ReadElementStep(input: string, i: nat, length: int, listing: string, line: string, rest: string)
    requires i < length && NextLine(input) == Some((line, rest))
    ensures line == "" ==> ReadElements(input, i, length, listing) == (Crashed, rest)
    ensures line != "" && line[0] == '$' ==>
              var (o, after) := ReadBulk(line, rest);
              ReadElements(input, i, length, listing)
                == if o.Shown? then ReadElements(after, i + 1, length, listing + Item(i, o.text)) else (o, after)
    ensures line != "" && line[0] == ':' ==>
              ReadElements(input, i, length, listing) == ReadElements(rest, i + 1, length, listing + Item(i, line[1..]))
    ensures line != "" && line[0] != '$' && line[0] != ':' ==>
              ReadElements(input, i, length, listing) == ReadElements(rest, i + 1, length, listing + Item(i, line))
  {
    hide NextLine, ReadBulk, Item;
  }

  lemma ReadElementsEnd(input: string, i: nat, length: int, listing: string)
    ensures i >= length ==> ReadElements(input, i, length, listing) == (Shown(listing), input)
    ensures i < length && NextLine(input) == None ==> ReadElements(input, i, length, listing) == (Failed, input)
  {
    hide NextLine, ReadBulk, Item;
  }

  function ReadArray(header: string, input: string): (Outcome, string)
    requires header != ""
  {
    match ScanDecimal(header[1..])
    case None => (Failed, input)
    case Some(n) =>
      if n == 0 then (Shown("(empty array)"), input)
      else if n == -1 then (Shown("(nil)"), input)
      else ReadElements(input, 0, n, "")
  }

  /** readResponse on the bytes still to come. */
  function ReadReply(input: string): (Outcome, string) {
    match NextLine(input)
    case None => (Failed, input)
    case Some((line, rest)) =>
      if line == "" then (Crashed, rest)
      else
        match line[0]
        case '+' => (Shown(line[1..]), rest)
        case '-' => (ServerError(line[1..]), rest)
        case ':' => (Shown(line[1..]), rest)
        case '$' => ReadBulk(line, rest)
        case '*' => ReadArray(line, rest)
        case _ => (Shown(line), rest)
  }

  class Client {
    var input: string

    constructor (input: string)
      ensures this.input == input
    {
      this.input := input;
    }

    method Scan() returns (line: Option<string>)
      modifies this
      ensures match NextLine(old(input))
              case None => line == None && input == old(input)
              case Some((l, rest)) => line == Some(l) && input == rest
    {
      var next := NextLine(input);
      if next.None? {
        return None;
      }
      input := next.value.1;
      return Some(next.value.0);
    }

    method ReadBulkString(header: string) returns (outcome: Outcome)
      requires header != ""
      modifies this
      ensures (outcome, input) == ReadBulk(header, old(input))
    {
      hide ScanDecimal, NextLine;
      var length := ScanDecimal(header[1..]);
      if length.None? {
        return Failed;
      }
      if length.value == -1 {
        return Shown("(nil)");
      }
      var line := Scan();
      if line.None? {
        return Failed;
      }
      return Shown(line.value);
    }

    method ReadArrayReply(header: string) returns (outcome: Outcome)
      requires header != ""
      modifies this
      ensures (outcome, input) == ReadArray(header, old(input))
    {
      hide ScanDecimal, ReadElements;
      var length := ScanDecimal(header[1..]);
      if length.None? {
        return Failed;
      }
      if length.value == 0 {
        return Shown("(empty array)");
      }
      if length.value == -1 {
        return Shown("(nil)");
      }
      outcome := ReadElementLines(length.value);
    }

    /** readArray's counted loop. */
    method ReadElementLines(length: int) returns (outcome: Outcome)
      modifies this
      ensures (outcome, input) == ReadElements(old(input), 0, length, "")
    {
      hide NextLine, ReadBulk, ReadElements, Item;
      var listing := "";
      var i := 0;
      while i < length
        invariant 0 <= i
        invariant ReadElements(old(input), 0, length, "") == ReadElements(input, i, length, listing)
      {
        ghost var before := input;
        ReadElementsEnd(before, i, length, listing);
        var line := Scan();
        if line.None? {
          return Failed;
        }
        ReadElementStep(before, i, length, listing, line.value, input);
        if line.value == "" {
          return Crashed;
        }
        if line.value[0] == '$' {
          var element := ReadBulkString(line.value);
          if !element.Shown? {
            return element;
          }
          listing := listing + Item(i, element.text);
        } else if line.value[0] == ':' {
          listing := listing + Item(i, line.value[1..]);
        } else {
          listing := listing + Item(i, line.value);
        }
        i := i + 1;
      }
      ReadElementsEnd(input, i, length, listing);
      return Shown(listing);
    }

    method ReadResponse() returns (outcome: Outcome)
      modifies this
      ensures (outcome, input) == ReadReply(old(input))
    {
      var line := Scan();
      if line.None? {
        return Failed;
      }
      if line.value == "" {
        return Crashed;
      }
      match line.value[0] {
        case '+' => return Shown(line.value[1..]);
        case '-' => return ServerError(line.value[1..]);
        case ':' => return Shown(line.value[1..]);
        case '$' => outcome := ReadBulkString(line.value);
        case '*' => outcome := ReadArrayReply(line.value);
        case _ => return Shown(line.value);
      }
    }
  }

  // ---------- What was printed is what is read ----------

  function ElementText(e: Element): string {
    match e
    case BulkElement(text) => text
    case IntElement(n) => Decimal(n)
  }

  function Texts(es: seq<Element>): (texts: seq<string>)
    ensures |texts| == |es| && forall i | 0 <= i < |es| :: texts[i] == ElementText(es[i])
  {
    seq(|es|, i requires 0 <= i < |es| => ElementText(es[i]))
  }

  /** The listing of texts, numbered from i on. */
  function Listing(texts: seq<string>, i: nat): string {
    if texts == [] then "" else Item(i, texts[0]) + Listing(texts[1..], i + 1)
  }

  /** What the user should see of a reply. */
  function Expected(r: Reply): Outcome {
    match r
    case Simple(text) => Shown(text)
    case Error(text) => ServerError(text)
    case Integer(n) => Shown(Decimal(n))
    case Bulk(text) => Shown(text)
    case Array(es) => if es == [] then Shown("(empty array)") else Shown(Listing(Texts(es), 0))
  }

  /** The text goes on one line of the wire, behind a tag of so many bytes. */
  predicate FitsLine(tag: nat, text: string) {
    '\n' !in text && tag + ByteLen(text) + 1 < LINE_LIMIT
  }

  predicate ElementsFit(es: seq<Element>) {
    forall i | 0 <= i < |es| && es[i].BulkElement? :: FitsLine(0, es[i].text)
  }

  /** No line of the reply is broken by a newline or too long for the client's scanner; an array's length is an int. */
  predicate Readable(r: Reply) {
    match r
    case Simple(text) => FitsLine(1, text)
    case Error(text) => FitsLine(1, text)
    case Integer(_) => true
    case Bulk(text) => FitsLine(0, text)
    case Array(es) => |es| < TWO_63 && ElementsFit(es)
  }

  lemma TaggedBytes(tag: char, text: string)
    requires tag as int < 0x80
    ensures ByteLen([tag] + text) == 1 + ByteLen(text)
  {
    assert ([tag] + text)[1..] == text;
  }

  /** A tagged line, read back. */
  lemma TaggedLine(tag: char, text: string, rest: string)
    requires tag as int < 0x80 && tag != '\n' && FitsLine(1, text)
    ensures NextLine([tag] + text + CRLF + rest) == Some(([tag] + text, rest))
    ensures ([tag] + text)[1..] == text
  {
    TaggedBytes(tag, text);
    LineRoundTrip([tag] + text, rest);
  }

  /** A tagged line of a number, read back. */
  lemma TaggedNumber(tag: char, n: int, rest: string)
    requires tag as int < 0x80 && tag != '\n' && -TWO_63 <= n < TWO_63
    ensures NextLine([tag] + Decimal(n) + CRLF + rest) == Some(([tag] + Decimal(n), rest))
    ensures ScanDecimal(([tag] + Decimal(n))[1..]) == Some(n)
  {
    hide Decimal, ScanDecimal, NextLine;
    DecimalHasNoNewline(n);
    DecimalIsShort(n);
    TaggedLine(tag, Decimal(n), rest);
    DecimalRoundTrip(n);
  }

  lemma BulkRoundTrip(text: string, rest: string)
    requires FitsLine(0, text)
    ensures var header := "$" + Decimal(ByteLen(text));
            && NextLine(PrintBulk(text) + rest) == Some((header, text + CRLF + rest))
            && ReadBulk(header, text + CRLF + rest) == (Shown(text), rest)
  {
    hide Decimal, ScanDecimal, NextLine, ByteLen;
    assert PrintBulk(text) + rest == "$" + Decimal(ByteLen(text)) + CRLF + (text + CRLF + rest);
    TaggedNumber('$', ByteLen(text), text + CRLF + rest);
    LineRoundTrip(text, rest);
  }

  /** One element is read whole and becomes one line of the listing. */
  lemma ElementRoundTrip(e: Element, after: string, i: nat, length: int, listing: string)
    requires (e.BulkElement? ==> FitsLine(0, e.text)) && i < length
    ensures ReadElements(PrintElement(e) + after, i, length, listing)
         == ReadElements(after, i + 1, length, listing + Item(i, ElementText(e)))
  {
    hide Decimal, ScanDecimal, NextLine, Item, ByteLen, ReadBulk, ReadElements;
    match e
    case BulkElement(t) =>
      var header := "$" + Decimal(ByteLen(t));
      BulkRoundTrip(t, after);
      ReadElementStep(PrintElement(e) + after, i, length, listing, header, t + CRLF + after);
    case IntElement(n) =>
      TaggedNumber(':', n, after);
      ReadElementStep(PrintElement(e) + after, i, length, listing, ":" + Decimal(n), after);
  }

  /** Reading the elements of an array builds their numbered listing and stops after the last of them. */
  lemma {:induction false} ElementsRoundTrip(es: seq<Element>, i: nat, listing: string, rest: string)
    requires ElementsFit(es)
    ensures ReadElements(PrintElements(es) + rest, i, i + |es|, listing)
         == (Shown(listing + Listing(Texts(es), i)), rest)
    decreases |es|
  {
    hide PrintElements, PrintElement, Item, ElementText, ReadElements, Texts, Listing, FitsLine;
    if es == [] {
      NothingToRead(i, listing, rest);
    } else {
      var e, tail := es[0], es[1..];
      var after := PrintElements(tail) + rest;
      ElementThenRest(e, tail);
      assert es == [e] + tail;
      assert PrintElements(es) + rest == PrintElement(e) + after;
      var item := Item(i, ElementText(e));
      ElementRoundTrip(e, after, i, i + |es|, listing);
      ElementsRoundTrip(tail, i + 1, listing + item, rest);
      ListingOfFirst(e, tail, i);
      var more := Listing(Texts(tail), i + 1);
      assert listing + item + more == listing + (item + more);
    }
  }

  lemma NothingToRead(i: nat, listing: string, rest: string)
    ensures ReadElements(PrintElements([]) + rest, i, i, listing) == (Shown(listing + Listing(Texts([]), i)), rest)
  {
    assert "" + rest == rest;
    assert listing + "" == listing;
  }

  lemma ListingOfFirst(e: Element, es: seq<Element>, i: nat)
    ensures Listing(Texts([e] + es), i) == Item(i, ElementText(e)) + Listing(Texts(es), i + 1)
  {
    hide Item, ElementText;
    assert Texts([e] + es)[1..] == Texts(es);
  }

  /** The client reads exactly one reply and shows what the server printed. */
  lemma ReplyRoundTrip(r: Reply, rest: string)
    requires Readable(r)
    ensures ReadReply(Print(r) + rest) == (Expected(r), rest)
  {
    hide Decimal, ScanDecimal, NextLine, ReadElements, ReadBulk, Listing, PrintElements, ByteLen, FitsLine;
    match r
    case Simple(text) =>
      TaggedLine('+', text, rest);
    case Error(text) =>
      TaggedLine('-', text, rest);
    case Integer(n) =>
      TaggedNumber(':', n, rest);
    case Bulk(text) =>
      BulkRoundTrip(text, rest);
    case Array(es) =>
      ArrayRoundTrip(es, rest);
  }

  lemma ArrayRoundTrip(es: seq<Element>, rest: string)
    requires Readable(Array(es))
    ensures ReadReply(Print(Array(es)) + rest) == (Expected(Array(es)), rest)
  {
    hide Decimal, ScanDecimal, NextLine, ReadElements, ReadBulk, Listing, PrintElements, ElementsFit;
    var after := PrintElements(es) + rest;
    assert Print(Array(es)) + rest == "*" + Decimal(|es|) + CRLF + after;
    TaggedNumber('*', |es|, after);
    if es == [] {
      NoElements();
      assert after == rest;
    } else {
      ElementsRoundTrip(es, 0, "", rest);
      assert "" + Listing(Texts(es), 0) == Listing(Texts(es), 0);
    }
  }

  /** Reading n replies one after the other. */
  function ReadAllReplies(input: string, n: nat): (seq<Outcome>, string)
    decreases n
  {
    if n == 0 then ([], input)
    else
      var (o, rest) := ReadReply(input);
      var (os, end) := ReadAllReplies(rest, n - 1);
      ([o] + os, end)
  }

  function AllExpected(rs: seq<Reply>): seq<Outcome> {
    if rs == [] then [] else [Expected(rs[0])] + AllExpected(rs[1..])
  }

  /** For any readable replies, the n-th read takes exactly the n-th reply and recovers it. */
  lemma {:induction false} RepliesRoundTrip(rs: seq<Reply>, rest: string)
    requires forall i | 0 <= i < |rs| :: Readable(rs[i])
    ensures ReadAllReplies(PrintAll(rs) + rest, |rs|) == (AllExpected(rs), rest)
  {
    hide Print, ReadReply, Expected, Readable;
    if rs == [] {
      assert "" + rest == rest;
    } else {
      assert PrintAll(rs) + rest == Print(rs[0]) + (PrintAll(rs[1..]) + rest);
      ReplyRoundTrip(rs[0], PrintAll(rs[1..]) + rest);
      RepliesRoundTrip(rs[1..], rest);
    }
  }

  /** A Bulk String comes back as sent exactly when it holds no newline and its line is below the scanner's limit. */
  lemma BulkNeedsOneLine(text: string, rest: string)
    ensures ReadReply(Print(Bulk(text)) + rest) == (Shown(text), rest)
       <==> '\n' !in text && ByteLen(text) + 1 < 65536
  {
    hide Decimal, ScanDecimal, NextLine, ByteLen;
    if FitsLine(0, text) {
      ReplyRoundTrip(Bulk(text), rest);
    } else {
      var header, content := "$" + Decimal(ByteLen(text)), text + CRLF + rest;
      assert PrintBulk(text) + rest == header + CRLF + content;
      DecimalHasNoNewline(ByteLen(text));
      LineRoundTrip(header, content);
      DecimalRoundTrip(ByteLen(text));
      assert header[1..] == Decimal(ByteLen(text));
      if '\n' !in text {
        LineRoundTrip(text, rest);
        assert text + "\r\n" + rest == content;
      }
    }
  }

  /** The texts of a listing whose lines are numbered from i + 1 on; None if it is not such a listing. */
  function Unlist(listing: string, i: nat): Option<seq<string>>
    decreases |listing|
  {
    if listing == "" then Some([])
    else
      var n, tag := LineEnd(listing), Decimal(i + 1) + ") ";
      if n == |listing| || |tag| > n || listing[..|tag|] != tag then None
      else
        match Unlist(listing[n + 1..], i + 1)
        case None => None
        case Some(more) => Some([listing[|tag|..n]] + more)
  }

  /** One line of a listing is taken off its front. */
  lemma UnlistLine(i: nat, text: string, rest: string)
    requires '\n' !in text
    ensures Unlist(Item(i, text) + rest, i)
         == match Unlist(rest, i + 1)
            case None => None
            case Some(more) => Some([text] + more)
  {
    var tag := Decimal(i + 1) + ") ";
    var line := tag + text;
    DecimalHasNoNewline(i + 1);
    hide Decimal;
    var all := Item(i, text) + rest;
    assert all == line + "\n" + rest;
    LineEndAt(line, rest);
    assert all[|line| + 1..] == rest;
    assert all[..|tag|] == tag && all[|tag|..|line|] == text;
  }

  /** The client's listing keeps every element, their order and their numbers: it can be taken apart again. */
  lemma {:induction false} ListingKeepsTexts(texts: seq<string>, i: nat)
    requires forall j | 0 <= j < |texts| :: '\n' !in texts[j]
    ensures Unlist(Listing(texts, i), i) == Some(texts)
    decreases |texts|
  {
    if texts != [] {
      hide Item, Unlist;
      UnlistLine(i, texts[0], Listing(texts[1..], i + 1));
      ListingKeepsTexts(texts[1..], i + 1);
      assert [texts[0]] + texts[1..] == texts;
    }
  }

  function Newlines(s: string): nat {
    if s == "" then 0 else (if s[0] == '\n' then 1 else 0) + Newlines(s[1..])
  }

  lemma {:induction false} NewlinesJoin(a: string, b: string)
    ensures Newlines(a + b) == Newlines(a) + Newlines(b)
  {
    if a == "" {
      assert a + b == b;
    } else {
      assert (a + b)[1..] == a[1..] + b;
      NewlinesJoin(a[1..], b);
    }
  }

  lemma {:induction false} NoNewlines(s: string)
    requires '\n' !in s
    ensures Newlines(s) == 0
  {
    if s != "" {
      NoNewlines(s[1..]);
    }
  }

  /** Line k of a listing, counted from 0, is the number k + 1, a parenthesis, a blank and text k. */
  lemma {:induction false} ListingLine(texts: seq<string>, i: nat, k: nat) returns (front: string, back: string)
    requires k < |texts| && forall j | 0 <= j < |texts| :: '\n' !in texts[j]
    ensures Listing(texts, i) == front + (Decimal(i + k + 1) + ") " + texts[k] + "\n") + back
    ensures Newlines(front) == k
    decreases |texts|
  {
    hide Decimal;
    var first, rest := Item(i, texts[0]), Listing(texts[1..], i + 1);
    if k == 0 {
      front, back := "", rest;
      assert first == Decimal(i + 0 + 1) + ") " + texts[0] + "\n";
      assert "" + first + rest == first + rest;
    } else {
      var more;
      more, back := ListingLine(texts[1..], i + 1, k - 1);
      front := first + more;
      var line := Decimal(i + 1 + (k - 1) + 1) + ") " + texts[1..][k - 1] + "\n";
      assert first + (more + line + back) == front + line + back;
      DecimalHasNoNewline(i + 1);
      NewlinesJoin(first, more);
      NewlinesJoin(Decimal(i + 1) + ") " + texts[0], "\n");
      NoNewlines(Decimal(i + 1) + ") " + texts[0]);
    }
  }

  // ---------- What the statistics are read as ----------

  lemma SmallDecimals()
    ensures Decimal(1) == "1" && Decimal(2) == "2" && Decimal(3) == "3" && Decimal(4) == "4"
    ensures Decimal(5) == "5" && Decimal(6) == "6" && Decimal(7) == "7" && Decimal(8) == "8"
  {
  }

  lemma NamesFit()
    ensures FitsLine(0, "name") && FitsLine(0, "size") && FitsLine(0, "consumers") && FitsLine(0, "total_size")
    ensures FitsLine(0, "topic_count") && FitsLine(0, "message_count") && FitsLine(0, "total_messages")
  {
    hide ByteLen;
    NameBytes();
  }

  lemma PairTexts(name: string, n: Int64, rest: seq<Element>)
    requires FitsLine(0, name) && ElementsFit(rest)
    ensures var es := Pair(name, n) + rest;
            Texts(es) == [name, Decimal(n)] + Texts(rest) && ElementsFit(es) && |es| == 2 + |rest|
  {
    hide Decimal, FitsLine;
  }

  lemma QueueStatsTexts(topicCount: Int64, totalMessages: Int64, totalSize: Int64)
    ensures var es := QueueStats(topicCount, totalMessages, totalSize);
            && |es| == 6 && ElementsFit(es)
            && Texts(es) == ["topic_count", Decimal(topicCount), "total_messages", Decimal(totalMessages),
                             "total_size", Decimal(totalSize)]
  {
    hide Pair, Decimal, FitsLine;
    NamesFit();
    PairTexts("total_size", totalSize, []);
    PairTexts("total_messages", totalMessages, Pair("total_size", totalSize) + []);
    PairTexts("topic_count", topicCount, Pair("total_messages", totalMessages) + (Pair("total_size", totalSize) + []));
    hide Texts, ElementsFit;
    ThreePairs("topic_count", Decimal(topicCount), "total_messages", Decimal(totalMessages),
               "total_size", Decimal(totalSize));
    assert Texts([]) == [];
  }

  lemma ThreePairs(a: string, b: string, c: string, d: string, e: string, f: string)
    ensures [a, b] + ([c, d] + ([e, f] + [])) == [a, b, c, d, e, f]
  {
  }

  lemma TopicStatsTexts(name: string, messageCount: Int64, size: Int64, consumers: Int64)
    requires FitsLine(0, name)
    ensures var es := TopicStats(name, messageCount, size, consumers);
            && |es| == 8 && ElementsFit(es)
            && Texts(es) == ["name", name, "message_count", Decimal(messageCount), "size", Decimal(size),
                             "consumers", Decimal(consumers)]
  {
    hide Pair, Decimal, FitsLine;
    NamesFit();
    PairTexts("consumers", consumers, []);
    PairTexts("size", size, Pair("consumers", consumers) + []);
    PairTexts("message_count", messageCount, Pair("size", size) + (Pair("consumers", consumers) + []));
    var rest := Pair("message_count", messageCount) + (Pair("size", size) + (Pair("consumers", consumers) + []));
    NameTexts(name, rest);
    hide Texts, ElementsFit;
    ThreePairs("message_count", Decimal(messageCount), "size", Decimal(size), "consumers", Decimal(consumers));
    FourPairs(name, Decimal(messageCount), Decimal(size), Decimal(consumers));
    assert Texts([]) == [];
  }

  lemma NameTexts(name: string, rest: seq<Element>)
    requires FitsLine(0, "name") && FitsLine(0, name) && ElementsFit(rest)
    ensures var es := [BulkElement("name"), BulkElement(name)] + rest;
            Texts(es) == ["name", name] + Texts(rest) && ElementsFit(es) && |es| == 2 + |rest|
  {
    hide FitsLine;
  }

  lemma FourPairs(a: string, b: string, c: string, d: string)
    ensures ["name", a] + ["message_count", b, "size", c, "consumers", d]
         == ["name", a, "message_count", b, "size", c, "consumers", d]
  {
  }

  /** Elements of a reply that fit their lines are shown as the listing of their texts, which can be taken apart. */
  lemma ArrayShown(es: seq<Element>, texts: seq<string>, rest: string)
    requires 0 < |es| < TWO_63 && ElementsFit(es) && Texts(es) == texts
    ensures ReadReply(Print(Array(es)) + rest) == (Shown(Listing(texts, 0)), rest)
    ensures Unlist(Listing(texts, 0), 0) == Some(texts)
  {
    hide Decimal, ByteLen, Listing, ReadReply, Print, Unlist;
    forall j | 0 <= j < |texts|
      ensures '\n' !in texts[j]
    {
      assert texts[j] == ElementText(es[j]);
      if es[j].IntElement? {
        DecimalHasNoNewline(es[j].n);
      }
    }
    ListingKeepsTexts(texts, 0);
    ReplyRoundTrip(Array(es), rest);
  }

  /** STATS as the client shows it: three names and their numbers, in this order. */
  lemma QueueStatsShown(topicCount: Int64, totalMessages: Int64, totalSize: Int64, rest: string)
    ensures var shown := ["topic_count", Decimal(topicCount), "total_messages", Decimal(totalMessages),
                          "total_size", Decimal(totalSize)];
            && ReadReply(Print(Array(QueueStats(topicCount, totalMessages, totalSize))) + rest)
                 == (Shown(Listing(shown, 0)), rest)
            && Unlist(Listing(shown, 0), 0) == Some(shown)
  {
    hide QueueStats, Decimal, Texts, ElementsFit, Listing, ReadReply, Print, Unlist;
    QueueStatsTexts(topicCount, totalMessages, totalSize);
    var es := QueueStats(topicCount, totalMessages, totalSize);
    ArrayShown(es, Texts(es), rest);
  }

  /** STATS of a topic as the client shows it: its name, then three names and their numbers, in this order. */
  lemma TopicStatsShown(name: string, messageCount: Int64, size: Int64, consumers: Int64, rest: string)
    requires FitsLine(0, name)
    ensures var shown := ["name", name, "message_count", Decimal(messageCount), "size", Decimal(size),
                          "consumers", Decimal(consumers)];
            && ReadReply(Print(Array(TopicStats(name, messageCount, size, consumers))) + rest)
                 == (Shown(Listing(shown, 0)), rest)
            && Unlist(Listing(shown, 0), 0) == Some(shown)
  {
    hide TopicStats, Decimal, Texts, ElementsFit, Listing, ReadReply, Print, Unlist;
    TopicStatsTexts(name, messageCount, size, consumers);
    var es := TopicStats(name, messageCount, size, consumers);
    ArrayShown(es, Texts(es), rest);
  }

  // ---------- Lines the server of this repository does not print ----------

  /** Nil replies and an empty array. */
  lemma NilReplies(rest: string)
    ensures ReadReply("$-1\r\n" + rest) == (Shown("(nil)"), rest)
    ensures ReadReply("*-1\r\n" + rest) == (Shown("(nil)"), rest)
    ensures ReadReply("*0\r\n" + rest) == (Shown("(empty array)"), rest)
  {
    assert Decimal(-1) == "-1" && Decimal(0) == "0";
    assert "$-1\r\n" == "$" + "-1" + "\r\n" && "*-1\r\n" == "*" + "-1" + "\r\n" && "*0\r\n" == "*" + "0" + "\r\n";
    hide Decimal;
    ShortHeader('$', -1, rest);
    ShortHeader('*', -1, rest);
    ShortHeader('*', 0, rest);
  }

  /** A header whose number alone decides the reply. */
  lemma ShortHeader(tag: char, n: int, rest: string)
    requires (tag == '$' && n == -1) || (tag == '*' && (n == -1 || n == 0))
    ensures ReadReply([tag] + Decimal(n) + "\r\n" + rest)
         == (Shown(if n == -1 then "(nil)" else "(empty array)"), rest)
  {
    hide Decimal, ScanDecimal, NextLine, ReadElements;
    TaggedNumber(tag, n, rest);
  }

  /** A text on one line is shown or reported by the line's first character. */
  lemma TextReplies(text: string, rest: string)
    requires FitsLine(1, text)
    ensures ReadReply("+" + text + "\r\n" + rest) == (Shown(text), rest)
    ensures ReadReply("-" + text + "\r\n" + rest) == (ServerError(text), rest)
    ensures ReadReply(":" + text + "\r\n" + rest) == (Shown(text), rest)
  {
    hide NextLine, ByteLen, FitsLine;
    TaggedLine('+', text, rest);
    TaggedLine('-', text, rest);
    TaggedLine(':', text, rest);
  }

  /** An empty line, and the end of the input. */
  lemma EmptyReplies(rest: string)
    ensures ReadReply("\r\n" + rest) == (Crashed, rest) && ReadReply("") == (Failed, "")
  {
    assert NextLine("") == None;
    OddLine("", rest);
    hide NextLine;
    assert "" + "\r\n" + rest == "\r\n" + rest;
  }

  /** Headers that are no numbers. */
  lemma BadHeaders(text: string, rest: string)
    requires FitsLine(1, text) && ScanDecimal(text) == None
    ensures ReadReply("$" + text + "\r\n" + rest) == (Failed, rest)
    ensures ReadReply("*" + text + "\r\n" + rest) == (Failed, rest)
  {
    hide ScanDecimal, NextLine, ByteLen, ReadElements, FitsLine;
    forall tag | tag == '$' || tag == '*'
      ensures ReadReply([tag] + text + CRLF + rest) == (Failed, rest)
    {
      TaggedLine(tag, text, rest);
    }
  }

  /** A bulk string whose content is missing, and an array that announces a negative number of elements. */
  lemma ShortReplies(n: Int64, rest: string)
    ensures n >= 0 ==> ReadReply("$" + Decimal(n) + "\r\n") == (Failed, "")
    ensures n < -1 ==> ReadReply("*" + Decimal(n) + "\r\n" + rest) == (Shown(""), rest)
  {
    assert NextLine("") == None;
    hide Decimal, ScanDecimal, NextLine, ReadElements;
    TaggedNumber('$', n, "");
    TaggedNumber('*', n, rest);
    assert ['$'] + Decimal(n) + CRLF + "" == "$" + Decimal(n) + "\r\n";
    ReadElementsEnd(rest, 0, n, "");
  }

  /** An empty line among the elements crashes the client, and the end of the input makes the whole read fail. */
  lemma MissingElement(i: nat, length: int, listing: string, rest: string)
    requires i < length
    ensures ReadElements("\r\n" + rest, i, length, listing) == (Crashed, rest)
    ensures ReadElements("", i, length, listing) == (Failed, "")
  {
    assert NextLine("") == None;
    OddLine("", rest);
    assert "" + "\r\n" + rest == "\r\n" + rest;
    hide NextLine, ReadElements;
    ReadElementStep("\r\n" + rest, i, length, listing, "", rest);
    ReadElementsEnd("", i, length, listing);
  }

  /** So does an element's header that is no number, whatever elements were read before. */
  lemma BrokenElement(text: string, i: nat, length: int, listing: string, rest: string)
    requires i < length && FitsLine(1, text) && ScanDecimal(text) == None
    ensures ReadElements(['$'] + text + CRLF + rest, i, length, listing) == (Failed, rest)
  {
    hide ScanDecimal, NextLine, ByteLen, ReadElements, FitsLine;
    TaggedLine('$', text, rest);
    ReadElementStep(['$'] + text + CRLF + rest, i, length, listing, ['$'] + text, rest);
  }

  /** A nil element is listed as one. */
  lemma NilElement(i: nat, length: int, listing: string, rest: string)
    requires i < length
    ensures ReadElements(['$'] + Decimal(-1) + CRLF + rest, i, length, listing)
         == ReadElements(rest, i + 1, length, listing + (Decimal(i + 1) + ") (nil)\n"))
  {
    hide Decimal, ScanDecimal, NextLine, ReadElements;
    TaggedNumber('$', -1, rest);
    ReadElementStep(['$'] + Decimal(-1) + CRLF + rest, i, length, listing, ['$'] + Decimal(-1), rest);
    assert Item(i, "(nil)") == Decimal(i + 1) + ") (nil)\n";
  }

  lemma OddLine(line: string, rest: string)
    requires |line| < 10 && forall i | 0 <= i < |line| :: line[i] as int < 0x80 && line[i] != '\n'
    ensures NextLine(line + "\r\n" + rest) == Some((line, rest))
  {
    ByteLenOfAscii(line);
    LineRoundTrip(line, rest);
  }

  /** A line with another first character is shown whole, alone or as an element, where it is numbered. */
  lemma OtherLines(text: string, rest: string)
    requires text != "" && text[0] !in "+-:$*" && FitsLine(0, text)
    ensures ReadReply(text + "\r\n" + rest) == (Shown(text), rest)
    ensures ReadReply("*1\r\n" + text + "\r\n" + rest) == (Shown("1) " + text + "\n"), rest)
  {
    hide NextLine, ScanDecimal, ReadElements, Decimal, ByteLen;
    LineRoundTrip(text, rest);
    var after := text + "\r\n" + rest;
    assert "*1\r\n" + text + "\r\n" + rest == "*1" + "\r\n" + after;
    OddLine("*1", after);
    SmallDecimals();
    DecimalRoundTrip(1);
    assert "*1"[1..] == "1";
    ReadElementStep(after, 0, 1, "", text, rest);
    assert "" + Item(0, text) == "1) " + text + "\n";
    ReadElementsEnd(rest, 1, 1, "1) " + text + "\n");
  }
}
