/** The swap file as text. Each page is one line: its number, its 16 bytes in decimal,
    all followed by a space, then a newline. The space printed after the newline ends
    up at the start of the next line. Reading a page back walks the lines with a
    128-byte buffer, splits them at spaces and converts the words to numbers. */
module SwapText {
  import opened Options
  import opened PagerModel

  // ----- writing

  function Digit(d: int): char
    requires 0 <= d < 10
  {
    (48 + d) as char
  }

  /** A number in decimal, as %d and %u print it. */
  function Decimal(n: nat): string {
    if n < 10 then [Digit(n)] else Decimal(n / 10) + [Digit(n % 10)]
  }

  function BytesText(bytes: seq<Byte>): string {
    if bytes == [] then "" else BytesText(bytes[..|bytes| - 1]) + Decimal(bytes[|bytes| - 1]) + " "
  }

  /** What `pageToFile` appends. */
  function LineText(line: nat, page: Page): string {
    Decimal(line) + " " + BytesText(page) + "\n" + " "
  }

  /** The file after the given pages were appended in order. */
  function FileText(pages: seq<Page>): string {
    if pages == [] then ""
    else FileText(pages[..|pages| - 1]) + LineText(|pages| - 1, pages[|pages| - 1])
  }

  // ----- reading

  predicate IsDigit(c: char) {
    '0' <= c <= '9'
  }

  function Digits(t: string, value: nat): nat {
    if t == "" || !IsDigit(t[0]) then value else Digits(t[1..], 10 * value + (t[0] as int - 48))
  }

  /** `atoi` on words that start with white space or a digit. */
  function Atoi(t: string): nat {
    if t != "" && (t[0] == ' ' || t[0] == '\n') then Atoi(t[1..]) else Digits(t, 0)
  }

  /** The length of the run of characters up to the next space. */
  function WordLength(t: string): (n: nat)
    ensures n <= |t|
  {
    if t == "" || t[0] == ' ' then 0 else 1 + WordLength(t[1..])
  }

  /** The words that repeated calls of `strtok` with a space give. */
  function Words(t: string): seq<string> {
    if t == "" then []
    else if t[0] == ' ' then Words(t[1..])
    else [t[..WordLength(t)]] + Words(t[WordLength(t)..])
  }

  const LINE_BUFFER := 128

  /** How much of `t` one `fgets` into a buffer with room for `room` characters takes:
      up to and including a newline. */
  function Taken(t: string, room: nat): (n: nat)
    ensures n <= |t|
    ensures t != "" && room > 0 ==> n > 0
    decreases room
  {
    if t == "" || room == 0 then 0 else if t[0] == '\n' then 1 else 1 + Taken(t[1..], room - 1)
  }

  /** The words of the first line of `t` that starts with the number `line`. `None` at
      the end of the file and at a line without words: there the C code repeats its
      last line for ever or follows a null pointer. */
  function Seek(t: string, line: nat): (words: Option<seq<string>>)
    ensures words.Some? ==> words.value != []
    decreases |t|
  {
    var n := Taken(t, LINE_BUFFER - 1);
    var words := Words(t[..n]);
    if t == "" || words == [] then None
    else if Atoi(words[0]) == line then Some(words)
    else Seek(t[n..], line)
  }

  function Values(words: seq<string>): (bytes: seq<Byte>)
    ensures |bytes| == |words|
  {
    if words == [] then [] else Values(words[..|words| - 1]) + [Atoi(words[|words| - 1]) % 256]
  }

  /** Every value `pageFromFile` stores in its buffer for swap line `line`. */
  function ReadLine(t: string, line: nat): Option<seq<Byte>> {
    var words :- Seek(t, line);
    Some(Values(words[1..]))
  }

  // ----- a number survives being printed and read

  predicate AllDigits(t: string) {
    forall i | 0 <= i < |t| :: IsDigit(t[i])
  }

  lemma {:induction false} DecimalDigits(n: nat)
    ensures AllDigits(Decimal(n)) && Decimal(n) != ""
  {
    if n >= 10 {
      DecimalDigits(n / 10);
    }
  }

  lemma {:induction false} DigitsJoin(a: string, b: string, value: nat)
    requires AllDigits(a)
    ensures Digits(a + b, value) == Digits(b, Digits(a, value))
  {
    if a == "" {
      assert a + b == b;
    } else {
      assert (a + b)[1..] == a[1..] + b;
      DigitsJoin(a[1..], b, 10 * value + (a[0] as int - 48));
    }
  }

  lemma {:induction false} DigitsOfDecimal(n: nat)
    ensures Digits(Decimal(n), 0) == n
  {
    if n < 10 {
      assert Decimal(n)[1..] == "";
    } else {
      DigitsOfDecimal(n / 10);
      DecimalDigits(n / 10);
      DigitsJoin(Decimal(n / 10), [Digit(n % 10)], 0);
      assert [Digit(n % 10)][1..] == "";
    }
  }

  lemma AtoiOfDecimal(n: nat)
    ensures Atoi(Decimal(n)) == n
  {
    DecimalDigits(n);
    DigitsOfDecimal(n);
    assert IsDigit(Decimal(n)[0]);
  }

  function TenTo(k: nat): (n: nat)
    ensures n > 0
  {
    if k == 0 then 1 else 10 * TenTo(k - 1)
  }

  lemma {:induction false} DecimalLength(n: nat, k: nat)
    requires k > 0 && n < TenTo(k)
    ensures |Decimal(n)| <= k
  {
    if n >= 10 {
      DecimalLength(n / 10, k - 1);
    }
  }

  // ----- a line survives being printed and split

  predicate NoBreaks(t: string) {
    forall i | 0 <= i < |t| :: t[i] != ' ' && t[i] != '\n'
  }

  lemma DecimalNoBreaks(n: nat)
    ensures NoBreaks(Decimal(n)) && Decimal(n) != ""
  {
    DecimalDigits(n);
    forall i | 0 <= i < |Decimal(n)| ensures Decimal(n)[i] != ' ' && Decimal(n)[i] != '\n' {
      assert IsDigit(Decimal(n)[i]);
    }
  }

  lemma {:induction false} WordLengthOf(w: string, rest: string)
    requires NoBreaks(w) && (rest == "" || rest[0] == ' ')
    ensures WordLength(w + rest) == |w|
  {
    if w == "" {
      assert w + rest == rest;
    } else {
      assert (w + rest)[1..] == w[1..] + rest;
      assert NoBreaks(w[1..]);
      WordLengthOf(w[1..], rest);
    }
  }

  lemma WordFirst(w: string, rest: string)
    requires NoBreaks(w) && w != ""
    ensures Words(w + " " + rest) == [w] + Words(rest)
  {
    var t := w + " " + rest;
    assert t == w + (" " + rest);
    WordLengthOf(w, " " + rest);
    assert t[..|w|] == w && t[|w|..] == " " + rest;
    assert (" " + rest)[1..] == rest;
    assert t[0] == w[0];
  }

  /** The decimal words of some bytes. */
  function ByteWords(bytes: seq<Byte>): seq<string> {
    if bytes == [] then [] else ByteWords(bytes[..|bytes| - 1]) + [Decimal(bytes[|bytes| - 1])]
  }

  lemma {:induction false} BytesSplit(bytes: seq<Byte>, rest: string)
    ensures Words(BytesText(bytes) + rest) == ByteWords(bytes) + Words(rest)
  {
    if bytes == [] {
      assert BytesText(bytes) + rest == rest;
    } else {
      var front, last := bytes[..|bytes| - 1], bytes[|bytes| - 1];
      DecimalNoBreaks(last);
      assert BytesText(bytes) + rest == BytesText(front) + (Decimal(last) + " " + rest);
      BytesSplit(front, Decimal(last) + " " + rest);
      WordFirst(Decimal(last), rest);
    }
  }

  lemma {:induction false} ValuesOfByteWords(bytes: seq<Byte>)
    ensures Values(ByteWords(bytes)) == bytes
  {
    if bytes != [] {
      var front, last := bytes[..|bytes| - 1], bytes[|bytes| - 1];
      ValuesOfByteWords(front);
      AtoiOfDecimal(last);
      var words := ByteWords(bytes);
      assert words[..|words| - 1] == ByteWords(front);
      assert bytes == front + [last];
    }
  }

  /** A line up to its newline. */
  function LineCore(line: nat, page: Page): string {
    Decimal(line) + " " + BytesText(page) + "\n"
  }

  lemma CoreWords(line: nat, page: Page, lead: string)
    requires lead == "" || lead == " "
    ensures Words(lead + LineCore(line, page)) == [Decimal(line)] + ByteWords(page) + ["\n"]
  {
    var core := LineCore(line, page);
    assert core == Decimal(line) + " " + (BytesText(page) + "\n");
    DecimalNoBreaks(line);
    WordFirst(Decimal(line), BytesText(page) + "\n");
    BytesSplit(page, "\n");
    NewlineWord();
    if lead == " " {
      assert (lead + core)[1..] == core;
    } else {
      assert lead + core == core;
    }
  }

  lemma NewlineWord()
    ensures Words("\n") == ["\n"]
  {
    assert "\n"[1..] == "";
    assert WordLength("\n") == 1;
    assert "\n"[..1] == "\n";
  }

  lemma CoreValues(line: nat, page: Page, words: seq<string>)
    requires words == [Decimal(line)] + ByteWords(page) + ["\n"]
    ensures Atoi(words[0]) == line
    ensures Values(words[1..]) == page + [0]
  {
    AtoiOfDecimal(line);
    assert words[1..] == ByteWords(page) + ["\n"];
    var tail := words[1..];
    assert tail[..|tail| - 1] == ByteWords(page);
    ValuesOfByteWords(page);
    assert "\n"[1..] == "";
    assert Atoi("\n") == 0;
  }

  // ----- a line fits the buffer

  lemma {:induction false} BytesTextLength(bytes: seq<Byte>)
    ensures |BytesText(bytes)| <= 4 * |bytes|
    ensures forall i | 0 <= i < |BytesText(bytes)| :: BytesText(bytes)[i] != '\n'
  {
    if bytes != [] {
      var front, last := bytes[..|bytes| - 1], bytes[|bytes| - 1];
      BytesTextLength(front);
      DecimalLength(last, 3);
      DecimalNoBreaks(last);
    }
  }

  /** The swap line numbers of a 32-bit int. */
  const INT_MAX := 0x7fff_ffff

  lemma TenDigits(line: nat)
    requires line <= INT_MAX
    ensures |Decimal(line)| <= 10
  {
    assert TenTo(5) == 100000;
    assert TenTo(10) == 10000000000;
    DecimalLength(line, 10);
  }

  lemma CoreFits(line: nat, page: Page, lead: string)
    requires line <= INT_MAX && (lead == "" || lead == " ")
    ensures |lead + LineCore(line, page)| < LINE_BUFFER
    ensures forall i | 0 <= i < |lead + LineCore(line, page)| - 1 :: (lead + LineCore(line, page))[i] != '\n'
  {
    TenDigits(line);
    DecimalNoBreaks(line);
    BytesTextLength(page);
  }

  lemma {:induction false} TakenLine(t: string, rest: string, room: nat)
    requires 0 < |t| <= room && t[|t| - 1] == '\n'
    requires forall i | 0 <= i < |t| - 1 :: t[i] != '\n'
    ensures Taken(t + rest, room) == |t|
    decreases |t|
  {
    if |t| > 1 {
      assert (t + rest)[1..] == t[1..] + rest;
      TakenLine(t[1..], rest, room - 1);
    }
  }

  // ----- the file

  /** The lines from number `i` on, each with the space after its newline. */
  function LinesFrom(pages: seq<Page>, i: nat): string
    requires i <= |pages|
    decreases |pages| - i
  {
    if i == |pages| then "" else LineCore(i, pages[i]) + " " + LinesFrom(pages, i + 1)
  }

  lemma {:induction false} LinesAppend(pages: seq<Page>, page: Page, i: nat)
    requires i <= |pages|
    ensures LinesFrom(pages + [page], i) == LinesFrom(pages, i) + LineText(|pages|, page)
    decreases |pages| - i
  {
    if i == |pages| {
      assert LinesFrom(pages + [page], i + 1) == "";
    } else {
      LinesAppend(pages, page, i + 1);
    }
  }

  lemma {:induction false} FileLines(pages: seq<Page>)
    ensures FileText(pages) == LinesFrom(pages, 0)
  {
    if pages != [] {
      var front, last := pages[..|pages| - 1], pages[|pages| - 1];
      assert pages == front + [last];
      FileLines(front);
      LinesAppend(front, last, 0);
    }
  }

  lemma SeekStep(first: string, rest: string, line: nat)
    requires first != "" && Taken(first + rest, LINE_BUFFER - 1) == |first| && Words(first) != []
    ensures Seek(first + rest, line) == if Atoi(Words(first)[0]) == line then Some(Words(first)) else Seek(rest, line)
  {
    assert (first + rest)[..|first|] == first && (first + rest)[|first|..] == rest;
  }

  lemma SeekEnd(lead: string, line: nat)
    requires lead == "" || lead == " "
    ensures Seek(lead, line) == None
  {
    if lead == " " {
      assert lead[..Taken(lead, LINE_BUFFER - 1)] == " ";
      assert " "[1..] == "";
    }
  }

  lemma FirstLine(pages: seq<Page>, i: nat, lead: string)
    requires i < |pages| <= INT_MAX + 1 && (lead == "" || lead == " ")
    ensures var first := lead + LineCore(i, pages[i]);
      && lead + LinesFrom(pages, i) == first + (" " + LinesFrom(pages, i + 1))
      && Taken(first + (" " + LinesFrom(pages, i + 1)), LINE_BUFFER - 1) == |first|
      && Words(first) == [Decimal(i)] + ByteWords(pages[i]) + ["\n"]
  {
    var first := lead + LineCore(i, pages[i]);
    CoreFits(i, pages[i], lead);
    CoreEnds(i, pages[i], lead);
    TakenLine(first, " " + LinesFrom(pages, i + 1), LINE_BUFFER - 1);
    CoreWords(i, pages[i], lead);
    LineJoins(lead, LineCore(i, pages[i]), LinesFrom(pages, i + 1));
  }

  lemma CoreEnds(line: nat, page: Page, lead: string)
    ensures var first := lead + LineCore(line, page); first != "" && first[|first| - 1] == '\n'
  {
  }

  lemma LineJoins(lead: string, core: string, rest: string)
    ensures lead + (core + " " + rest) == (lead + core) + (" " + rest)
  {
  }

  /** Reading on from the start of line `i`. */
  lemma {:induction false} SeekFrom(pages: seq<Page>, i: nat, lead: string, line: nat)
    requires i <= |pages| <= INT_MAX + 1 && (if i == 0 then lead == "" else lead == " ")
    ensures Seek(lead + LinesFrom(pages, i), line) ==
      if i <= line < |pages| then Some([Decimal(line)] + ByteWords(pages[line]) + ["\n"]) else None
    decreases |pages| - i
  {
    if i == |pages| {
      assert lead + LinesFrom(pages, i) == lead;
      SeekEnd(lead, line);
    } else {
      FirstLine(pages, i, lead);
      SeekStep(lead + LineCore(i, pages[i]), " " + LinesFrom(pages, i + 1), line);
      AtoiOfDecimal(i);
      SeekFrom(pages, i + 1, " ", line);
    }
  }

  lemma SeekFile(pages: seq<Page>, line: nat)
    requires |pages| <= INT_MAX + 1
    ensures Seek(FileText(pages), line) ==
      if line < |pages| then Some([Decimal(line)] + ByteWords(pages[line]) + ["\n"]) else None
  {
    FileLines(pages);
    assert "" + LinesFrom(pages, 0) == LinesFrom(pages, 0);
    SeekFrom(pages, 0, "", line);
  }

  lemma SoughtLine(t: string, line: nat, words: seq<string>)
    requires words != [] && Seek(t, line) == Some(words)
    ensures ReadLine(t, line) == Some(Values(words[1..]))
  {
  }

  /** The round trip: a line below the count reads back as its 16 bytes, followed by
      one zero for the newline word; a line that was never written is never found. */
  lemma ReadsBack(pages: seq<Page>, line: nat)
    requires |pages| <= INT_MAX + 1
    ensures ReadLine(FileText(pages), line) == if line < |pages| then Some(pages[line] + [0]) else None
  {
    SeekFile(pages, line);
    if line < |pages| {
      var words := [Decimal(line)] + ByteWords(pages[line]) + ["\n"];
      SoughtLine(FileText(pages), line, words);
      CoreValues(line, pages[line], words);
    }
  }

  /** Different logs of pages are different files. */
  lemma FileTextInjective(a: seq<Page>, b: seq<Page>)
    requires |a| <= INT_MAX && |b| <= INT_MAX && FileText(a) == FileText(b)
    ensures a == b
  {
    ReadsBack(a, |a|);
    ReadsBack(b, |a|);
    ReadsBack(a, |b|);
    ReadsBack(b, |b|);
    forall i | 0 <= i < |a| ensures a[i] == b[i] {
      ReadsBack(a, i);
      ReadsBack(b, i);
      assert (a[i] + [0])[..16] == a[i] && (b[i] + [0])[..16] == b[i];
    }
  }
}
