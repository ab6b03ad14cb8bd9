/**
 * The RESP2 specification's own reading of a reply, by its type's first byte and its stated lengths:
 * what any other client of the server would take the replies for.
 */
module RespFormat {
  import opened Numbers
  import opened Results
  import opened Text
  import opened Resp

  /** What comes before the first CRLF, and after it. */
  function UntilCrlf(s: string): (r: Option<(string, string)>)
    ensures r.Some? ==> |r.value.1| < |s|
  {
    if |s| < 2 then None
    else if s[0] == '\r' && s[1] == '\n' then Some(("", s[2..]))
    else
      match UntilCrlf(s[1..])
      case None => None
      case Some((line, rest)) => Some(([s[0]] + line, rest))
  }

  /** The runes whose bytes are the first n, and what follows them. */
  function TakeBytes(s: string, n: nat): (r: Option<(string, string)>)
    ensures r.Some? ==> |r.value.1| <= |s|
    decreases |s|
  {
    if n == 0 then Some(("", s))
    else if s == "" || Width(s[0]) > n then None
    else
      match TakeBytes(s[1..], n - Width(s[0]))
      case None => None
      case Some((text, rest)) => Some(([s[0]] + text, rest))
  }

  function DecodeNumber(line: string): Option<int> {
    match ScanDecimal(line)
    case Some(n) => if Decimal(n) == line then Some(n) else None
    case None => None
  }

  /** A Bulk String behind its "$": a length in bytes, that many bytes, which may be any, and CRLF. */
  function DecodeBulk(s: string): (r: Option<(string, string)>)
    ensures r.Some? ==> |r.value.1| < |s|
  {
    match UntilCrlf(s)
    case None => None
    case Some((line, after)) =>
      match DecodeNumber(line)
      case None => None
      case Some(n) =>
        if n < 0 then None
        else
          match TakeBytes(after, n)
          case None => None
          case Some((text, rest)) =>
            if |rest| >= 2 && rest[0] == '\r' && rest[1] == '\n' then Some((text, rest[2..])) else None
  }

  /** An Integer behind its ":". */
  function DecodeInteger(s: string): (r: Option<(Int64, string)>)
    ensures r.Some? ==> |r.value.1| < |s|
  {
    match UntilCrlf(s)
    case None => None
    case Some((line, rest)) =>
      match DecodeNumber(line)
      case None => None
      case Some(n) => if -TWO_63 <= n < TWO_63 then Some((n, rest)) else None
  }

  function DecodeElement(s: string): (r: Option<(Element, string)>)
    ensures r.Some? ==> |r.value.1| < |s|
  {
    if s == "" then None
    else if s[0] == '$' then
      match DecodeBulk(s[1..])
      case None => None
      case Some((text, rest)) => Some((BulkElement(text), rest))
    else if s[0] == ':' then
      match DecodeInteger(s[1..])
      case None => None
      case Some((n, rest)) => Some((IntElement(n), rest))
    else None
  }

  function DecodeElements(s: string, n: nat): Option<(seq<Element>, string)>
    decreases n
  {
    if n == 0 then Some(([], s))
    else
      match DecodeElement(s)
      case None => None
      case Some((e, rest)) =>
        match DecodeElements(rest, n - 1)
        case None => None
        case Some((es, end)) => Some(([e] + es, end))
  }

  function DecodeReply(s: string): Option<(Reply, string)> {
    if s == "" then None
    else
      match s[0]
      case '$' =>
        (match DecodeBulk(s[1..])
         case None => None
         case Some((text, rest)) => Some((Bulk(text), rest)))
      case ':' =>
        (match DecodeInteger(s[1..])
         case None => None
         case Some((n, rest)) => Some((Integer(n), rest)))
      case _ =>
        match UntilCrlf(s[1..])
        case None => None
        case Some((line, rest)) =>
          if s[0] == '+' then Some((Simple(line), rest))
          else if s[0] == '-' then Some((Error(line), rest))
          else if s[0] != '*' then None
          else
            match DecodeNumber(line)
            case None => None
            case Some(n) =>
              if n < 0 then None
              else
                match DecodeElements(rest, n)
                case None => None
                case Some((es, end)) => Some((Array(es), end))
  }

  // ---------- Every reply is what it says ----------

  lemma {:induction false} LineUntilCrlf(line: string, rest: string)
    requires '\r' !in line
    ensures UntilCrlf(line + CRLF + rest) == Some((line, rest))
  {
    var s := line + CRLF + rest;
    if line == "" {
      assert s[2..] == rest;
    } else {
      assert s[1..] == line[1..] + CRLF + rest;
      LineUntilCrlf(line[1..], rest);
      assert [line[0]] + line[1..] == line;
    }
  }

  lemma {:induction false} TakeItsBytes(text: string, rest: string)
    ensures TakeBytes(text + rest, ByteLen(text)) == Some((text, rest))
  {
    if text == "" {
      assert text + rest == rest;
    } else {
      assert (text + rest)[1..] == text[1..] + rest;
      TakeItsBytes(text[1..], rest);
      assert [text[0]] + text[1..] == text;
    }
  }

  lemma NumberLine(n: int, rest: string)
    ensures UntilCrlf(Decimal(n) + CRLF + rest) == Some((Decimal(n), rest)) && DecodeNumber(Decimal(n)) == Some(n)
  {
    var digits := Digits(if n < 0 then -n else n);
    assert forall i | 0 <= i < |digits| :: IsDigit(digits[i]);
    assert '\r' !in Decimal(n);
    LineUntilCrlf(Decimal(n), rest);
    DecimalRoundTrip(n);
  }

  lemma BulkDecodes(text: string, rest: string)
    ensures PrintBulk(text) + rest != "" && (PrintBulk(text) + rest)[0] == '$'
    ensures DecodeBulk((PrintBulk(text) + rest)[1..]) == Some((text, rest))
  {
    hide Decimal, ByteLen, UntilCrlf, DecodeNumber, TakeBytes;
    var after := text + (CRLF + rest);
    assert (PrintBulk(text) + rest)[1..] == Decimal(ByteLen(text)) + CRLF + after;
    NumberLine(ByteLen(text), after);
    TakeItsBytes(text, CRLF + rest);
    assert (CRLF + rest)[2..] == rest;
  }

  lemma IntegerDecodes(n: Int64, rest: string)
    ensures DecodeInteger(Decimal(n) + CRLF + rest) == Some((n, rest))
  {
    hide Decimal, UntilCrlf, DecodeNumber;
    NumberLine(n, rest);
  }

  lemma ElementDecodes(e: Element, rest: string)
    ensures DecodeElement(PrintElement(e) + rest) == Some((e, rest))
  {
    hide Decimal, DecodeBulk, DecodeInteger, PrintBulk;
    match e
    case BulkElement(text) =>
      BulkDecodes(text, rest);
    case IntElement(n) =>
      IntegerDecodes(n, rest);
      assert (PrintElement(e) + rest)[1..] == Decimal(n) + CRLF + rest;
  }

  lemma {:induction false} ElementsDecode(es: seq<Element>, rest: string)
    ensures DecodeElements(PrintElements(es) + rest, |es|) == Some((es, rest))
  {
    hide PrintElement, DecodeElement;
    if es == [] {
      assert PrintElements(es) + rest == rest;
    } else {
      var after := PrintElements(es[1..]) + rest;
      assert PrintElements(es) + rest == PrintElement(es[0]) + after;
      ElementDecodes(es[0], after);
      ElementsDecode(es[1..], rest);
      assert [es[0]] + es[1..] == es;
    }
  }

  /**
   * Every reply is read as what it is: its type, its texts, whatever bytes they hold, and its numbers, with
   * nothing of what follows; only a Simple String or an Error must not hold a carriage return.
   */
  lemma ReplyDecodes(r: Reply, rest: string)
    requires (r.Simple? || r.Error?) ==> '\r' !in r.text
    ensures DecodeReply(Print(r) + rest) == Some((r, rest))
  {
    hide Decimal, DecodeBulk, DecodeInteger, PrintBulk, PrintElements, UntilCrlf, DecodeNumber, DecodeElements;
    match r
    case Simple(text) =>
      LineUntilCrlf(text, rest);
      assert (Print(r) + rest)[1..] == text + CRLF + rest;
    case Error(text) =>
      LineUntilCrlf(text, rest);
      assert (Print(r) + rest)[1..] == text + CRLF + rest;
    case Integer(n) =>
      IntegerDecodes(n, rest);
      assert (Print(r) + rest)[1..] == Decimal(n) + CRLF + rest;
    case Bulk(text) =>
      BulkDecodes(text, rest);
    case Array(es) =>
      ArrayDecodes(es, rest);
  }

  lemma ArrayDecodes(es: seq<Element>, rest: string)
    ensures DecodeReply(Print(Array(es)) + rest) == Some((Array(es), rest))
  {
    hide Decimal, DecodeBulk, DecodeInteger, DecodeElements, PrintElements, UntilCrlf, DecodeNumber;
    var after := PrintElements(es) + rest;
    NumberLine(|es|, after);
    assert (Print(Array(es)) + rest)[1..] == Decimal(|es|) + CRLF + after;
    ElementsDecode(es, rest);
  }
}
