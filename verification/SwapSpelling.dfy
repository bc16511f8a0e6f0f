/** The swap file character by character: which digits stand for a number, what they are
    read as, how a line is put together, and how the reader cuts it up again. */
module SwapSpelling {
  import opened PagerModel
  import opened SwapText

  const DIGITS := "0123456789"

  // ----- numbers

  /** The digit of `n` that has `k` others to its right. */
  function DigitAt(n: nat, k: nat): char {
    DIGITS[n / TenTo(k) % 10]
  }

  lemma TimesNext(b: int, x: int, y: int)
    requires b > 0
    ensures x < y ==> b * x + b <= b * y
  {
    if x < y {
      var k := y - x - 1;
      assert y == x + 1 + k && b * k >= 0;
      assert b * (x + 1 + k) == b * x + b + b * k;
    }
  }

  lemma Quotient(n: int, b: int, q: int, r: int)
    requires b > 0 && n == b * q + r && 0 <= r < b
    ensures n / b == q
  {
    assert n == b * (n / b) + n % b;
    TimesNext(b, q, n / b);
    TimesNext(b, n / b, q);
  }

  lemma QuotientTwice(n: nat, m: nat)
    requires m > 0
    ensures n / 10 / m == n / (10 * m)
  {
    var q, r := n / 10 / m, n / 10 % m;
    assert n / 10 == m * q + r;
    assert 10 * m * q == 10 * (m * q);
    Quotient(n, 10 * m, q, 10 * r + n % 10);
  }

  lemma DigitsShift(n: nat, k: nat)
    ensures DigitAt(n / 10, k) == DigitAt(n, k + 1)
  {
    QuotientTwice(n, TenTo(k));
  }

  lemma LastDigit(n: nat)
    ensures DigitAt(n, 0) == DIGITS[n % 10] == Digit(n % 10)
  {
    assert TenTo(0) == 1;
  }

  /** A number is printed as its decimal digits, every one and no others: the first is
      a zero only for zero itself. */
  lemma {:induction false} DecimalSpelled(n: nat)
    ensures var t := Decimal(n);
      && t != "" && n < TenTo(|t|)
      && (forall i | 0 <= i < |t| :: t[i] == DigitAt(n, |t| - 1 - i))
      && (t[0] == '0' <==> n == 0)
  {
    LastDigit(n);
    var t := Decimal(n);
    if n < 10 {
      assert TenTo(1) == 10;
    } else {
      DecimalSpelled(n / 10);
      var front := Decimal(n / 10);
      assert TenTo(|t|) == 10 * TenTo(|front|);
      forall i | 0 <= i < |t| ensures t[i] == DigitAt(n, |t| - 1 - i) {
        if i < |front| {
          assert t[i] == front[i];
          DigitsShift(n, |front| - 1 - i);
        }
      }
    }
  }

  lemma DigitRead(d: int, value: nat)
    requires 0 <= d < 10
    ensures IsDigit(DIGITS[d]) && Digits([DIGITS[d]], value) == 10 * value + d
  {
    assert [DIGITS[d]][1..] == "";
  }

  /** A digit more is read as ten times the number and the digit. */
  lemma AtoiReads(t: string, d: int)
    requires AllDigits(t) && 0 <= d < 10
    ensures Atoi(t + [DIGITS[d]]) == (if t == "" then 0 else 10 * Atoi(t)) + d
  {
    var u := t + [DIGITS[d]];
    DigitRead(d, 0);
    assert IsDigit(u[0]) by {
      if t != "" {
        assert u[0] == t[0];
      }
    }
    DigitsJoin(t, [DIGITS[d]], 0);
    DigitRead(d, Digits(t, 0));
    if t != "" {
      assert IsDigit(t[0]);
    }
  }

  /** Reading ends at the first character that is not a digit. */
  lemma AtoiStops(t: string, rest: string)
    requires AllDigits(t) && t != "" && (rest == "" || !IsDigit(rest[0]))
    ensures Atoi(t + rest) == Atoi(t)
  {
    assert IsDigit(t[0]) && (t + rest)[0] == t[0];
    DigitsJoin(t, rest, 0);
  }

  /** Spaces and newlines before it are passed over. */
  lemma AtoiSkips(t: string)
    ensures Atoi(" " + t) == Atoi("\n" + t) == Atoi(t)
  {
    assert (" " + t)[1..] == t && ("\n" + t)[1..] == t;
  }

  // ----- lines

  /** Words, each with a space after it. */
  function Spaced(words: seq<string>): string {
    if words == [] then "" else words[0] + " " + Spaced(words[1..])
  }

  lemma {:induction false} SpacedJoins(a: seq<string>, b: seq<string>)
    ensures Spaced(a + b) == Spaced(a) + Spaced(b)
  {
    if a == [] {
      assert a + b == b;
    } else {
      assert (a + b)[1..] == a[1..] + b;
      SpacedJoins(a[1..], b);
    }
  }

  lemma SpacedOne(w: string)
    ensures Spaced([w]) == w + " "
  {
    assert [w][1..] == [];
    assert Spaced([]) == "";
  }

  /** The words of a line: its number, its bytes from the first to the last, a newline. */
  function LineWords(line: nat, page: Page): (words: seq<string>)
    ensures |words| == 18
  {
    [Decimal(line)] + seq(16, i requires 0 <= i < 16 => Decimal(page[i])) + ["\n"]
  }

  lemma {:induction false} BytesSpelled(page: Page, n: nat)
    requires n <= 16
    ensures BytesText(page[..n]) == Spaced(seq(n, i requires 0 <= i < n => Decimal(page[i])))
  {
    if n == 0 {
      assert page[..0] == [];
    } else {
      var words := seq(n, i requires 0 <= i < n => Decimal(page[i]));
      var front := seq(n - 1, i requires 0 <= i < n - 1 => Decimal(page[i]));
      assert page[..n][..n - 1] == page[..n - 1];
      assert words == front + [Decimal(page[n - 1])];
      BytesSpelled(page, n - 1);
      SpacedJoins(front, [Decimal(page[n - 1])]);
      SpacedOne(Decimal(page[n - 1]));
    }
  }

  /** A line is these words with a space after each, the newline included. */
  lemma LineSpelled(line: nat, page: Page)
    ensures LineText(line, page) == Spaced(LineWords(line, page))
  {
    var bytes := seq(16, i requires 0 <= i < 16 => Decimal(page[i]));
    assert page[..16] == page;
    BytesSpelled(page, 16);
    SpacedOne(Decimal(line));
    SpacedOne("\n");
    SpacedJoins([Decimal(line)], bytes);
    SpacedJoins([Decimal(line)] + bytes, ["\n"]);
  }

  /** The words of the first `n` lines of a file. */
  function FileWords(pages: seq<Page>, n: nat): seq<string>
    requires n <= |pages|
  {
    if n == 0 then [] else FileWords(pages, n - 1) + LineWords(n - 1, pages[n - 1])
  }

  /** A file is its lines in the order in which they were written, numbered from 0. */
  lemma {:induction false} FileSpelled(pages: seq<Page>, n: nat)
    requires n <= |pages|
    ensures FileText(pages[..n]) == Spaced(FileWords(pages, n))
  {
    if n == 0 {
      assert pages[..0] == [];
    } else {
      assert pages[..n][..n - 1] == pages[..n - 1];
      FileSpelled(pages, n - 1);
      LineSpelled(n - 1, pages[n - 1]);
      SpacedJoins(FileWords(pages, n - 1), LineWords(n - 1, pages[n - 1]));
    }
  }

  const SOME_PAGE: Page := [0, 1, 2, 3, 4, 5, 6, 7, 8, 9, 10, 42, 99, 100, 205, 255]

  lemma SomeDecimals()
    ensures Decimal(0) == "0" && Decimal(1) == "1" && Decimal(2) == "2" && Decimal(3) == "3" && Decimal(4) == "4"
    ensures Decimal(5) == "5" && Decimal(6) == "6" && Decimal(7) == "7" && Decimal(8) == "8" && Decimal(9) == "9"
    ensures Decimal(10) == "10" && Decimal(42) == "42" && Decimal(99) == "99"
    ensures Decimal(100) == "100" && Decimal(205) == "205" && Decimal(255) == "255"
  {
  }

  lemma SpacedSix(a: string, b: string, c: string, d: string, e: string, f: string)
    ensures Spaced([a, b, c, d, e, f]) == a + " " + b + " " + c + " " + d + " " + e + " " + f + " "
  {
    SpacedJoins([a], [b, c, d, e, f]);
    SpacedJoins([b], [c, d, e, f]);
    SpacedJoins([c], [d, e, f]);
    SpacedJoins([d], [e, f]);
    SpacedJoins([e], [f]);
    SpacedOne(a);
    SpacedOne(b);
    SpacedOne(c);
    SpacedOne(d);
    SpacedOne(e);
    SpacedOne(f);
  }

  lemma SpacedParts(a: seq<string>, b: seq<string>, c: seq<string>)
    ensures Spaced(a + b + c) == Spaced(a) + Spaced(b) + Spaced(c)
  {
    SpacedJoins(a, b);
    SpacedJoins(a + b, c);
  }

  /** The line of one page, written out. */
  lemma OneLine()
    ensures LineText(42, SOME_PAGE) == "42 0 1 2 3 4 " + "5 6 7 8 9 10 " + "42 99 100 205 255 \n "
  {
    LineSpelled(42, SOME_PAGE);
    OneLineWords();
    SpacedParts(WORDS_0, WORDS_1, WORDS_2);
    FirstSix();
    NextSix();
    LastSix();
  }

  lemma FirstSix()
    ensures Spaced(WORDS_0) == "42 0 1 2 3 4 "
  {
    SpacedSix("42", "0", "1", "2", "3", "4");
    assert "42" + " " + "0" + " " + "1" + " " + "2" + " " + "3" + " " + "4" + " " == "42 0 1 2 3 4 ";
  }

  lemma NextSix()
    ensures Spaced(WORDS_1) == "5 6 7 8 9 10 "
  {
    SpacedSix("5", "6", "7", "8", "9", "10");
    assert "5" + " " + "6" + " " + "7" + " " + "8" + " " + "9" + " " + "10" + " " == "5 6 7 8 9 10 ";
  }

  lemma LastSix()
    ensures Spaced(WORDS_2) == "42 99 100 205 255 \n "
  {
    SpacedSix("42", "99", "100", "205", "255", "\n");
    assert "42" + " " + "99" + " " + "100" + " " + "205" + " " + "255" + " " + "\n" + " " == "42 99 100 205 255 \n ";
  }

  const WORDS_0 := ["42", "0", "1", "2", "3", "4"]
  const WORDS_1 := ["5", "6", "7", "8", "9", "10"]
  const WORDS_2 := ["42", "99", "100", "205", "255", "\n"]

  lemma OneLineWords()
    ensures LineWords(42, SOME_PAGE) == WORDS_0 + WORDS_1 + WORDS_2
  {
    SomeDecimals();
  }

  lemma AtoiTwo(a: int, b: int)
    requires 0 <= a < 10 && 0 <= b < 10
    ensures Atoi([DIGITS[a]]) == a && Atoi([DIGITS[a], DIGITS[b]]) == 10 * a + b
  {
    AtoiReads("", a);
    AtoiReads([DIGITS[a]], b);
    assert "" + [DIGITS[a]] == [DIGITS[a]];
    assert [DIGITS[a]] + [DIGITS[b]] == [DIGITS[a], DIGITS[b]];
    DigitRead(a, 0);
  }

  /** Numbers as the reader takes them. */
  lemma SomeNumbers()
    ensures Atoi("0") == 0 && Atoi("9") == 9 && Atoi("42") == 42 && Atoi("205") == 205
  {
    AtoiTwo(0, 0);
    AtoiTwo(9, 0);
    AtoiTwo(4, 2);
    AtoiTwo(2, 0);
    AtoiReads("20", 5);
    assert "20" + [DIGITS[5]] == "205";
  }

  // ----- cutting it up again

  /** One `fgets` takes up to and including the first newline, or as much as there is
      room for, or all there is. */
  lemma {:induction false} TakenIs(t: string, room: nat)
    ensures var n := Taken(t, room);
      && n <= room && (forall i | 0 <= i < n - 1 :: t[i] != '\n')
      && (n == room || n == |t| || (n > 0 && t[n - 1] == '\n'))
    decreases room
  {
    if t != "" && room > 0 && t[0] != '\n' {
      TakenIs(t[1..], room - 1);
      var n := Taken(t, room);
      forall i | 0 <= i < n - 1 ensures t[i] != '\n' {
        assert i > 0 ==> t[i] == t[1..][i - 1];
      }
    }
  }

  predicate NoSpaces(t: string) {
    forall i | 0 <= i < |t| :: t[i] != ' '
  }

  /** `strtok` at spaces: what is put together with a space after each word comes apart
      into the same words, however many spaces come first. */
  lemma {:induction false} WordsOfSpaced(words: seq<string>)
    requires forall i | 0 <= i < |words| :: words[i] != "" && NoSpaces(words[i])
    ensures Words(Spaced(words)) == words && Words(" " + Spaced(words)) == words
  {
    assert (" " + Spaced(words))[1..] == Spaced(words);
    if words != [] {
      WordsOfSpaced(words[1..]);
      WordBefore(words[0], Spaced(words[1..]));
    }
  }

  lemma {:induction false} WordLengthIs(w: string, rest: string)
    requires NoSpaces(w)
    ensures WordLength(w + " " + rest) == |w|
  {
    var t := w + " " + rest;
    if w != "" {
      assert t[1..] == w[1..] + " " + rest;
      WordLengthIs(w[1..], rest);
    }
  }

  lemma WordBefore(w: string, rest: string)
    requires NoSpaces(w) && w != ""
    ensures Words(w + " " + rest) == [w] + Words(rest)
  {
    var t := w + " " + rest;
    WordLengthIs(w, rest);
    assert t[..|w|] == w && t[|w|..] == " " + rest;
    assert (" " + rest)[1..] == rest;
    assert t[0] == w[0];
  }
}
