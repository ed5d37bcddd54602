/** Cell encoders of the three CSV exporters, and a reference decoder for one
    CSV record (quoted fields with doubled inner quotes, or bare fields that
    run to the next comma) against which the encoders are judged. */
module Csv {
  import opened Wrappers
  import opened Text

  const QUOTE: char := '"'

  /** String.prototype.replace(/"/g, '""'). */
  function DoubleQuotes(s: string): string
  {
    if s == [] then [] else (if s[0] == QUOTE then [QUOTE, QUOTE] else [s[0]]) + DoubleQuotes(s[1..])
  }

  /** A cell wrapped in quotes with every inner quote doubled. */
  function QuoteCell(s: string): string
  {
    [QUOTE] + DoubleQuotes(s) + [QUOTE]
  }

  /** A cell wrapped in quotes with nothing escaped. */
  function WrapCell(s: string): string
  {
    [QUOTE] + s + [QUOTE]
  }

  /** A quote-free string needs no doubling, so the two wrappings agree. */
  lemma {:induction false} DoubleQuotesNoQuote(s: string)
    requires QUOTE !in s
    ensures DoubleQuotes(s) == s
  {
    if s != [] {
      DoubleQuotesNoQuote(s[1..]);
      assert s == [s[0]] + s[1..];
    }
  }

  lemma WrapIsQuoteWithoutQuotes(s: string)
    requires QUOTE !in s
    ensures WrapCell(s) == QuoteCell(s)
  {
    DoubleQuotesNoQuote(s);
  }

  // ---------------------------------------------------------------------
  // Reference decoder

  /** Reads the body of a quoted field, after its opening quote: a pair of
      quotes stands for one quote and a lone quote closes the field. Returns
      the content and what follows the closing quote. */
  function ScanQuoted(s: string): (r: Option<(string, string)>)
    ensures r.Some? ==> |r.value.1| < |s|
  {
    if s == [] then None
    else if s[0] == QUOTE then
      if |s| > 1 && s[1] == QUOTE then
        match ScanQuoted(s[2..])
        case None => None
        case Some(res) => Some(([QUOTE] + res.0, res.1))
      else Some(([], s[1..]))
    else
      match ScanQuoted(s[1..])
      case None => None
      case Some(res) => Some(([s[0]] + res.0, res.1))
  }

  /** Reads a bare field up to the next comma or the end. */
  function ScanBare(s: string): (r: (string, string))
    ensures |r.1| <= |s|
    ensures r.0 + r.1 == s
    ensures r.1 == [] || r.1[0] == ','
  {
    if s == [] || s[0] == ',' then ([], s)
    else
      var res := ScanBare(s[1..]);
      ([s[0]] + res.0, res.1)
  }

  /** Reads one field; what remains is empty or starts with the comma that
      separates it from the next field. */
  function ParseField(s: string): (r: Option<(string, string)>)
    ensures r.Some? ==> |r.value.1| <= |s|
    ensures r.Some? ==> r.value.1 == [] || r.value.1[0] == ','
  {
    if s != [] && s[0] == QUOTE then
      match ScanQuoted(s[1..])
      case None => None
      case Some(res) => if res.1 == [] || res.1[0] == ',' then Some(res) else None
    else Some(ScanBare(s))
  }

  /** Reads a whole record (one line) into its fields. */
  function ParseRecord(s: string): Option<seq<string>>
    decreases |s|
  {
    match ParseField(s)
    case None => None
    case Some(res) =>
      if res.1 == [] then Some([res.0])
      else
        match ParseRecord(res.1[1..])
        case None => None
        case Some(rest) => Some([res.0] + rest)
  }

  // ---------------------------------------------------------------------
  // Encoded records and their round trip

  /** A cell as an exporter writes it: quoted-and-escaped, or bare. */
  datatype Cell = Quoted(text: string) | Bare(text: string)

  function EncodeCell(c: Cell): string
  {
    match c
    case Quoted(t) => QuoteCell(t)
    case Bare(t) => t
  }

  /** A bare cell reads back as itself when it has no comma and does not
      start with a quote. */
  predicate Readable(c: Cell)
  {
    c.Bare? ==> ',' !in c.text && (c.text == [] || c.text[0] != QUOTE)
  }

  function EncodeCells(cells: seq<Cell>): (r: seq<string>)
    ensures |r| == |cells|
    ensures forall k :: 0 <= k < |cells| ==> r[k] == EncodeCell(cells[k])
  {
    if cells == [] then [] else [EncodeCell(cells[0])] + EncodeCells(cells[1..])
  }

  function Texts(cells: seq<Cell>): (r: seq<string>)
    ensures |r| == |cells|
    ensures forall k :: 0 <= k < |cells| ==> r[k] == cells[k].text
  {
    if cells == [] then [] else [cells[0].text] + Texts(cells[1..])
  }

  function EncodeRecord(cells: seq<Cell>): string
  {
    Join(EncodeCells(cells), ",")
  }

  lemma {:induction false} ScanQuotedDoubled(c: string, rest: string)
    requires rest == [] || rest[0] != QUOTE
    ensures ScanQuoted(DoubleQuotes(c) + [QUOTE] + rest) == Some((c, rest))
  {
    if c == [] {
      assert DoubleQuotes(c) + [QUOTE] + rest == [QUOTE] + rest;
    } else {
      ScanQuotedDoubled(c[1..], rest);
      var tail := DoubleQuotes(c[1..]) + [QUOTE] + rest;
      assert c == [c[0]] + c[1..];
      if c[0] == QUOTE {
        assert DoubleQuotes(c) + [QUOTE] + rest == [QUOTE, QUOTE] + tail;
      } else {
        assert DoubleQuotes(c) + [QUOTE] + rest == [c[0]] + tail;
      }
    }
  }

  lemma {:induction false} ScanBareClean(c: string, rest: string)
    requires ',' !in c
    requires rest == [] || rest[0] == ','
    ensures ScanBare(c + rest) == (c, rest)
  {
    if c == [] {
      assert c + rest == rest;
    } else {
      ScanBareClean(c[1..], rest);
      assert c[0] in c;
      assert (c + rest)[1..] == c[1..] + rest;
      assert c == [c[0]] + c[1..];
    }
  }

  lemma ParseFieldEncoded(c: Cell, rest: string)
    requires Readable(c)
    requires rest == [] || rest[0] == ','
    ensures ParseField(EncodeCell(c) + rest) == Some((c.text, rest))
  {
    match c
    case Quoted(t) =>
      ScanQuotedDoubled(t, rest);
      assert (EncodeCell(c) + rest)[1..] == DoubleQuotes(t) + [QUOTE] + rest;
    case Bare(t) =>
      ScanBareClean(t, rest);
  }

  /** Decoding an encoded record gives back the cells' texts. */
  lemma {:induction false} ParseEncodedRecord(cells: seq<Cell>)
    requires |cells| > 0
    requires forall k :: 0 <= k < |cells| ==> Readable(cells[k])
    ensures ParseRecord(EncodeRecord(cells)) == Some(Texts(cells))
  {
    var parts := EncodeCells(cells);
    if |cells| == 1 {
      ParseFieldEncoded(cells[0], []);
      assert parts == [EncodeCell(cells[0])];
      assert EncodeRecord(cells) == EncodeCell(cells[0]) + [];
      assert Texts(cells) == [cells[0].text];
    } else {
      var tail := EncodeRecord(cells[1..]);
      assert EncodeCells(cells[1..]) == parts[1..];
      assert EncodeRecord(cells) == EncodeCell(cells[0]) + ("," + tail);
      ParseFieldEncoded(cells[0], "," + tail);
      ParseEncodedRecord(cells[1..]);
      assert ("," + tail)[1..] == tail;
      assert Texts(cells) == [cells[0].text] + Texts(cells[1..]);
    }
  }

  /** A single quoted cell reads back as the original string, whatever it is. */
  lemma QuotedCellRoundTrip(s: string)
    ensures ParseRecord(QuoteCell(s)) == Some([s])
  {
    ParseEncodedRecord([Quoted(s)]);
    assert EncodeRecord([Quoted(s)]) == QuoteCell(s);
  }

  /** Wrapping a lone quote without escaping does not read back at all. */
  lemma WrappedQuoteUnreadable()
    ensures ParseRecord(WrapCell([QUOTE])) == None
  {
    assert WrapCell([QUOTE])[1..] == [QUOTE, QUOTE];
    assert ScanQuoted([QUOTE, QUOTE]) == None by {
      assert [QUOTE, QUOTE][2..] == [];
    }
  }

  /** A record that opens with a lone quote wrapped without escaping, then
      a quoted cell whose text starts with an ordinary character: the reader
      takes the doubled quote as an escaped one, runs on through the comma
      and closes at the next quote, and then finds neither a comma nor the
      end. */
  lemma UnescapedQuoteRecord(text: string, tail: string)
    requires text != [] && text[0] != QUOTE && text[0] != ','
    ensures ParseRecord(WrapCell([QUOTE]) + [','] + [QUOTE] + text + tail) == None
  {
    var line := WrapCell([QUOTE]) + [','] + [QUOTE] + text + tail;
    assert WrapCell([QUOTE]) == [QUOTE, QUOTE, QUOTE];
    assert line[..5] == [QUOTE, QUOTE, QUOTE, ',', QUOTE] && line[5..] == text + tail;
    ClosingQuote(line[4..]);
    assert line[4..][1..] == line[5..];
    assert line[3..][0] == ',' && line[3..][1..] == line[4..];
    assert ScanQuoted(line[3..]) == Some(([','] + [], line[5..]));
    assert line[1..][0] == QUOTE && line[1..][1] == QUOTE && line[1..][2..] == line[3..];
    assert ScanQuoted(line[1..]) == Some(([QUOTE] + ([','] + []), line[5..]));
  }

  /** A quote not followed by another closes a quoted field. */
  lemma ClosingQuote(s: string)
    requires |s| > 1 && s[0] == QUOTE && s[1] != QUOTE
    ensures ScanQuoted(s) == Some(([], s[1..]))
  {
  }

  // ---------------------------------------------------------------------
  // Newline-free lines

  lemma {:induction false} JoinAvoids(parts: seq<string>, sep: string, c: char)
    requires c !in sep
    requires forall k :: 0 <= k < |parts| ==> c !in parts[k]
    ensures c !in Join(parts, sep)
  {
    if |parts| > 1 {
      JoinAvoids(parts[1..], sep, c);
    }
  }

  lemma {:induction false} DoubleQuotesAvoids(s: string, c: char)
    requires c != QUOTE && c !in s
    ensures c !in DoubleQuotes(s)
  {
    if s != [] {
      DoubleQuotesAvoids(s[1..], c);
    }
  }

  lemma IntToStringPlain(n: int)
    ensures '\n' !in IntToString(n) && ',' !in IntToString(n)
    ensures IntToString(n)[0] != QUOTE
  {
    var r := IntToString(n);
    assert IsDigit(r[0]) || r[0] == '-';
  }
}
