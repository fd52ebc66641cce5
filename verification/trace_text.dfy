/** The exported history as text. The simulator prints one line per call, fields apart by a blank;
    the replay tool splits every line at its blanks. Printing and reading are inverse exactly when
    no name in the history is empty or holds a blank. */
module TraceText {
  import opened Integers
  import opened Ledger
  import Go = GoVault
  import opened Differential

  /* ----- words ----- */

  // White space as the reader knows it.
  predicate Blank(c: char)
  {
    var code := c as int;
    || 9 <= code <= 13 || code == 0x20 || code == 0x85 || code == 0xa0 || code == 0x1680 || 0x2000 <= code <= 0x200a
    || code == 0x2028 || code == 0x2029 || code == 0x202f || code == 0x205f || code == 0x3000
  }

  predicate Unbroken(s: string)
  {
    forall i | 0 <= i < |s| :: !Blank(s[i])
  }

  predicate Word(s: string)
  {
    s != "" && Unbroken(s)
  }

  function WordEnd(s: string): (end: nat)
    ensures end <= |s| && Unbroken(s[..end]) && (end < |s| ==> Blank(s[end]))
  {
    if s == "" || Blank(s[0]) then 0
    else
      var rest := WordEnd(s[1..]);
      assert s[..rest + 1] == [s[0]] + s[1..][..rest];
      rest + 1
  }

  function Words(s: string): (words: seq<string>)
    ensures forall w | w in words :: Word(w)
    decreases |s|
  {
    if s == "" then []
    else if Blank(s[0]) then Words(s[1..])
    else
      var end := WordEnd(s);
      [s[..end]] + Words(s[end..])
  }

  // The printed line: the fields, one blank apart.
  function Joined(words: seq<string>): string
  {
    if words == [] then ""
    else if |words| == 1 then words[0]
    else words[0] + " " + Joined(words[1..])
  }

  lemma {:induction false} EndOfWord(w: string, rest: string)
    requires Unbroken(w) && (rest == "" || Blank(rest[0]))
    ensures WordEnd(w + rest) == |w|
    decreases |w|
  {
    if w != "" {
      assert (w + rest)[1..] == w[1..] + rest;
      EndOfWord(w[1..], rest);
    } else {
      assert w + rest == rest;
    }
  }

  lemma FirstWord(w: string, rest: string)
    requires Word(w) && (rest == "" || Blank(rest[0]))
    ensures Words(w + rest) == [w] + Words(rest)
  {
    EndOfWord(w, rest);
    assert (w + rest)[0] == w[0] && (w + rest)[..|w|] == w && (w + rest)[|w|..] == rest;
  }

  // Splitting undoes joining.
  lemma {:induction false} WordsOfJoined(words: seq<string>)
    requires forall i | 0 <= i < |words| :: Word(words[i])
    ensures Words(Joined(words)) == words
    decreases |words|
  {
    if |words| == 1 {
      FirstWord(words[0], "");
      assert words[0] + "" == words[0];
    } else if words != [] {
      var rest := Joined(words[1..]);
      WordsOfJoined(words[1..]);
      FirstWord(words[0], " " + rest);
      assert (" " + rest)[1..] == rest;
      assert words[0] + " " + rest == words[0] + (" " + rest);
      assert words == [words[0]] + words[1..];
    }
  }

  /* ----- numbers ----- */

  const I128_LIMIT := 0x8000_0000_0000_0000_0000_0000_0000_0000

  predicate Digits(s: string)
  {
    s != "" && forall i | 0 <= i < |s| :: '0' <= s[i] <= '9'
  }

  function Decimal(n: nat): (s: string)
    ensures Digits(s)
  {
    var last := ('0' as int + n % 10) as char;
    if n < 10 then [last] else Decimal(n / 10) + [last]
  }

  function ValueOf(s: string): nat
    requires Digits(s)
  {
    var last := s[|s| - 1] as int - '0' as int;
    if |s| == 1 then last else ValueOf(s[..|s| - 1]) * 10 + last
  }

  function Printed(x: int): string
  {
    if x < 0 then "-" + Decimal(-x) else Decimal(x)
  }

  // An optional sign and at least one digit, within 128 bits.
  function NumberIn(s: string): Option<int>
  {
    if s == "" then None
    else
      var digits := if s[0] == '-' || s[0] == '+' then s[1..] else s;
      if !Digits(digits) then None
      else
        var x := if s[0] == '-' then 0 - ValueOf(digits) else ValueOf(digits);
        if -I128_LIMIT <= x < I128_LIMIT then Some(x) else None
  }

  lemma {:induction false} DecimalIsRead(n: nat)
    ensures ValueOf(Decimal(n)) == n
    decreases n
  {
    if n >= 10 {
      DecimalIsRead(n / 10);
      assert Decimal(n)[..|Decimal(n)| - 1] == Decimal(n / 10);
    }
  }

  lemma PrintedIsRead(x: int)
    requires -I128_LIMIT <= x < I128_LIMIT
    ensures NumberIn(Printed(x)) == Some(x) && Word(Printed(x))
  {
    DecimalIsRead(if x < 0 then -x else x);
    if x < 0 {
      assert ("-" + Decimal(-x))[1..] == Decimal(-x);
    }
  }

  /* ----- nonces ----- */

  // A deposit's id is its number behind a tag. An intent's id is text without blanks and without
  // that tag; its number stands for it here.
  const DEPOSIT_TAG := "dep-"

  function NonceText(n: Go.Nonce): string
  {
    match n
    case DepositId(number) => DEPOSIT_TAG + Decimal(number)
    case IntentId(id) => Decimal(id)
  }

  function NonceIn(s: string): Option<Go.Nonce>
  {
    if |s| > 4 && s[..4] == DEPOSIT_TAG then if Digits(s[4..]) then Some(Go.DepositId(ValueOf(s[4..]))) else None
    else if Digits(s) then Some(Go.IntentId(ValueOf(s)))
    else None
  }

  lemma NonceIsRead(n: Go.Nonce)
    ensures NonceIn(NonceText(n)) == Some(n) && Word(NonceText(n))
  {
    match n {
      case DepositId(number) =>
        DecimalIsRead(number);
        assert NonceText(n)[..4] == DEPOSIT_TAG && NonceText(n)[4..] == Decimal(number);
      case IntentId(id) =>
        DecimalIsRead(id);
        assert |NonceText(n)| > 4 ==> NonceText(n)[..4][0] != 'd';
    }
  }

  /* ----- lines ----- */

  function Fields(line: Line): seq<string>
  {
    match line
    case DepositLine(n, user, amount, height) => ["deposit", NonceText(n), user, Printed(amount), Printed(height)]
    case WithdrawLine(n, user, amount, expiry, height) =>
      ["withdraw", NonceText(n), user, Printed(amount), Printed(expiry), Printed(height)]
    case EscrowLine(n, market, target, expiry, height) =>
      ["escrow_set", NonceText(n), market, Printed(target), Printed(expiry), Printed(height)]
    case SettleLine(n, market, outcome, expiry, height) =>
      ["settle", NonceText(n), market, Printed(outcome), Printed(expiry), Printed(height)]
    case CancelLine(n, expiry, height) => ["cancel", NonceText(n), Printed(expiry), Printed(height)]
    case ExpectBalance(value) => ["expect", "balance", Printed(value)]
    case ExpectEscrowTotal(value) => ["expect", "escrow_total", Printed(value)]
    case ExpectEscrow(market, value) => ["expect", "escrow", market, Printed(value)]
  }

  datatype Reading = Comment | Read(line: Line) | Unreadable

  // What the tool makes of the words of one line.
  function ReadWords(w: seq<string>): Reading
  {
    if w == [] || (w[0] != "" && w[0][0] == '#') then Comment
    else if w[0] == "deposit" && |w| == 5 then ReadDeposit(NonceIn(w[1]), w[2], NumberIn(w[3]), NumberIn(w[4]))
    else if |w| == 6 then ReadLong(w[0], NonceIn(w[1]), w[2], NumberIn(w[3]), NumberIn(w[4]), NumberIn(w[5]))
    else if w[0] == "cancel" && |w| == 4 then ReadCancel(NonceIn(w[1]), NumberIn(w[2]), NumberIn(w[3]))
    else if w[0] == "expect" && |w| == 4 && w[1] == "escrow" then ReadExpectation(w[1], w[2], NumberIn(w[3]))
    else if w[0] == "expect" && |w| == 3 then ReadExpectation(w[1], "", NumberIn(w[2]))
    else Unreadable
  }

  function ReadDeposit(n: Option<Go.Nonce>, user: string, amount: Option<int>, height: Option<int>): Reading
  {
    if n.None? || amount.None? || height.None? then Unreadable
    else Read(DepositLine(n.value, user, amount.value, height.value))
  }

  function ReadLong(op: string, n: Option<Go.Nonce>, name: string, x: Option<int>, expiry: Option<int>,
      height: Option<int>): Reading
  {
    if n.None? || x.None? || expiry.None? || height.None? then Unreadable
    else if op == "withdraw" then Read(WithdrawLine(n.value, name, x.value, expiry.value, height.value))
    else if op == "escrow_set" then Read(EscrowLine(n.value, name, x.value, expiry.value, height.value))
    else if op == "settle" then Read(SettleLine(n.value, name, x.value, expiry.value, height.value))
    else Unreadable
  }

  function ReadCancel(n: Option<Go.Nonce>, expiry: Option<int>, height: Option<int>): Reading
  {
    if n.None? || expiry.None? || height.None? then Unreadable
        else Read(CancelLine(n.value, expiry.value, height.value))
  }

  // An expectation of a market without a name has one word less, and still reads as what it is.
  function ReadExpectation(what: string, market: string, value: Option<int>): Reading
  {
    if value.None? then Unreadable
    else if what == "escrow" then Read(ExpectEscrow(market, value.value))
    else if what == "balance" then Read(ExpectBalance(value.value))
    else if what == "escrow_total" then Read(ExpectEscrowTotal(value.value))
    else Unreadable
  }

  predicate NumbersFit(line: Line)
  {
    match line
    case DepositLine(_, _, amount, height) => FitsInt64(amount) && FitsInt64(height)
    case WithdrawLine(_, _, amount, expiry, height) => FitsInt64(amount) && FitsInt64(expiry) && FitsInt64(height)
    case EscrowLine(_, _, target, expiry, height) => FitsInt64(target) && FitsInt64(expiry) && FitsInt64(height)
    case SettleLine(_, _, outcome, expiry, height) => FitsInt64(outcome) && FitsInt64(expiry) && FitsInt64(height)
    case CancelLine(_, expiry, height) => FitsInt64(expiry) && FitsInt64(height)
    case ExpectBalance(value) => FitsInt64(value)
    case ExpectEscrowTotal(value) => FitsInt64(value)
    case ExpectEscrow(_, value) => FitsInt64(value)
  }

  // The user or market named in the line reads back: the name in an expectation may even be empty.
  predicate NameFits(line: Line)
  {
    match line
    case DepositLine(_, user, _, _) => Word(user)
    case WithdrawLine(_, user, _, _, _) => Word(user)
    case EscrowLine(_, market, _, _, _) => Word(market)
    case SettleLine(_, market, _, _, _) => Word(market)
    case ExpectEscrow(market, _) => Unbroken(market)
    case _ => true
  }

  // Whatever is read has a name that fits.
  lemma ReadNamesFit(w: seq<string>)
    requires forall i | 0 <= i < |w| :: Word(w[i])
    ensures ReadWords(w).Read? ==> NameFits(ReadWords(w).line)
  {
    assert |w| > 2 ==> Word(w[2]);
    WordsAreUnbroken();
    hide NonceIn, NumberIn, Word;
    assert Unbroken("");
    hide Unbroken;
  }

  lemma FieldsAreWords(line: Line)
    requires NumbersFit(line) && NameFits(line)
    ensures forall i | 0 <= i < |Fields(line)| :: Unbroken(Fields(line)[i])
    ensures !(line.ExpectEscrow? && line.market == "") ==> forall i | 0 <= i < |Fields(line)| :: Word(Fields(line)[i])
  {
    hide Printed, NonceText, NonceIn, NumberIn, Unbroken;
    NumbersAreRead(line);
    TagsAreWords();
    hide FitsInt64;
  }

  lemma TagsAreWords()
    ensures Word("deposit") && Word("withdraw") && Word("escrow_set") && Word("settle") && Word("cancel")
    ensures Word("expect") && Word("balance") && Word("escrow_total") && Word("escrow")
  {
  }

  // Every number and nonce of the line reads back.
  lemma NumbersAreRead(line: Line)
    requires NumbersFit(line)
    ensures forall n :: NonceIn(NonceText(n)) == Some(n)
    ensures forall n :: Word(NonceText(n))
    ensures forall x | FitsInt64(x) :: NumberIn(Printed(x)) == Some(x)
    ensures forall x | FitsInt64(x) :: Word(Printed(x))
  {
    forall n ensures NonceIn(NonceText(n)) == Some(n) && Word(NonceText(n)) {
      NonceIsRead(n);
    }
    forall x | FitsInt64(x) ensures NumberIn(Printed(x)) == Some(x) && Word(Printed(x)) {
      PrintedIsRead(x);
    }
  }

  lemma FieldsAreRead(line: Line)
    requires NumbersFit(line) && NameFits(line)
    ensures ReadWords(Words(Joined(Fields(line)))) == Read(line)
  {
    hide Printed, NumberIn, NonceIn, NonceText, Words, WordEnd, Word, Unbroken, Joined;
    NumbersAreRead(line);
    TagsAreWords();
    if line.ExpectEscrow? && line.market == "" {
      NamelessExpectation("expect", "escrow", Printed(line.value));
    } else {
      FieldsAreWords(line);
      WordsOfJoined(Fields(line));
      FieldsMeanLine(line);
    }
  }

  lemma FieldsMeanLine(line: Line)
    requires forall n :: NonceIn(NonceText(n)) == Some(n)
    requires NumbersFit(line) && forall x | FitsInt64(x) :: NumberIn(Printed(x)) == Some(x)
    ensures ReadWords(Fields(line)) == Read(line)
  {
    hide Printed, NumberIn, NonceIn, NonceText;
  }

  // The empty name leaves two blanks in a row, which part the words as one does.
  lemma NamelessExpectation(first: string, second: string, value: string)
    requires Word(first) && Word(second) && Word(value)
    ensures Words(Joined([first, second, "", value])) == [first, second, value]
  {
    hide Words, Word;
    var w, tail := [first, second, "", value], " " + value;
    assert Joined(w[2..]) == tail by {
      assert w[2..] == ["", value] && ["", value][1..] == [value] && "" + " " + value == tail;
    }
    assert Joined(w[1..]) == second + (" " + tail) by {
      assert w[1..] == [second, "", value] && w[1..][1..] == w[2..] && second + " " + tail == second + (" " + tail);
    }
    assert Joined(w) == first + (" " + (second + (" " + tail)));
    hide Joined;
    OneWord(value);
    BlankSkipped(value);
    BlankSkipped(tail);
    FirstWord(second, " " + tail);
    BlankSkipped(second + (" " + tail));
    FirstWord(first, " " + (second + (" " + tail)));
  }

  lemma OneWord(w: string)
    requires Word(w)
    ensures Words(w) == [w]
  {
    FirstWord(w, "");
    assert w + "" == w;
  }

  lemma BlankSkipped(s: string)
    ensures Words(" " + s) == Words(s)
  {
    assert (" " + s)[1..] == s;
  }

  // One line printed and read again is the same line exactly when its name fits.
  lemma LineRoundTrip(line: Line)
    requires NumbersFit(line)
    ensures ReadWords(Words(Joined(Fields(line)))) == Read(line) <==> NameFits(line)
  {
    if NameFits(line) {
      FieldsAreRead(line);
    } else {
      ReadNamesFit(Words(Joined(Fields(line))));
    }
  }

  // The order of the fields: what is done, under which nonce, to whom or what, how much, until when,
  // and at which height.
  lemma FieldsInOrder(line: Line)
    requires line.IsCall()
    ensures var f := Fields(line);
      && |f| >= 4 && f[1] == NonceText(line.nonce) && f[|f| - 1] == Printed(line.height)
      && (line.DepositLine? <==> f[0] == "deposit") && (line.WithdrawLine? <==> f[0] == "withdraw")
      && (line.EscrowLine? <==> f[0] == "escrow_set") && (line.SettleLine? <==> f[0] == "settle")
      && (line.CancelLine? <==> f[0] == "cancel")
      && (line.DepositLine? || line.WithdrawLine? ==> f[2] == line.user && f[3] == Printed(line.amount))
      && (line.EscrowLine? ==> f[2] == line.market && f[3] == Printed(line.target))
      && (line.SettleLine? ==> f[2] == line.market && f[3] == Printed(line.outcome))
      && (!line.DepositLine? ==> f[|f| - 2] == Printed(line.expiry))
  {
    hide Printed, NonceText;
  }

  /* ----- the file ----- */

  // Cuts the text at its line ends.
  function Rows(text: string): seq<string>
  {
    if text == "" then []
    else
      var end := RowEnd(text);
      [text[..end]] + if end == |text| then [] else Rows(text[end + 1..])
  }

  function RowEnd(text: string): (end: nat)
    ensures end <= |text| && (end < |text| ==> text[end] == '\n') && forall i | 0 <= i < end :: text[i] != '\n'
  {
    if text == "" || text[0] == '\n' then 0
    else
      var rest := RowEnd(text[1..]);
      assert forall i | 0 < i < rest + 1 :: text[i] == text[1..][i - 1];
      rest + 1
  }

  function Written(rows: seq<string>): string
  {
    if rows == [] then "" else rows[0] + "\n" + Written(rows[1..])
  }

  function RowsOf(lines: seq<Line>): seq<string>
  {
    if lines == [] then [] else [Joined(Fields(lines[0]))] + RowsOf(lines[1..])
  }

  // The exported file: a comment, then the lines.
  function FileOf(comment: string, lines: seq<Line>): string
  {
    Written([comment] + RowsOf(lines))
  }

  // The lines the tool reads, or none when it gives up on one of them.
  function ReadRows(rows: seq<string>): Option<seq<Line>>
  {
    if rows == [] then Some([])
    else
      var rest := ReadRows(rows[1..]);
      match ReadWords(Words(rows[0]))
      case Comment => rest
      case Read(line) => if rest.None? then None else Some([line] + rest.value)
      case Unreadable => None
  }

  function ReadFile(text: string): Option<seq<Line>>
  {
    ReadRows(Rows(text))
  }

  lemma {:induction false} RowEndOf(row: string, rest: string)
    requires forall i | 0 <= i < |row| :: row[i] != '\n'
    ensures RowEnd(row + "\n" + rest) == |row|
    decreases |row|
  {
    if row != "" {
      assert (row + "\n" + rest)[1..] == row[1..] + "\n" + rest;
      RowEndOf(row[1..], rest);
    } else {
      assert row + "\n" + rest == "\n" + rest;
    }
  }

  lemma {:induction false} RowsOfWritten(rows: seq<string>)
    requires forall k | 0 <= k < |rows| :: OneRow(rows[k])
    ensures Rows(Written(rows)) == rows
    decreases |rows|
  {
    hide OneRow, Rows;
    if rows == [] {
      NoRows();
    } else {
      var rest := Written(rows[1..]);
      RowsOfWritten(rows[1..]);
      assert OneRow(rows[0]);
      FirstRow(rows[0], rest);
      assert rows == [rows[0]] + rows[1..];
    }
  }

  lemma NoRows()
    ensures Rows("") == []
  {
  }

  lemma FirstRow(row: string, rest: string)
    requires OneRow(row)
    ensures Rows(row + "\n" + rest) == [row] + Rows(rest)
  {
    RowEndOf(row, rest);
    var text := row + "\n" + rest;
    assert text[..|row|] == row && text[|row| + 1..] == rest;
  }

  predicate OneRow(row: string)
  {
    forall i | 0 <= i < |row| :: row[i] != '\n'
  }

  lemma {:induction false} JoinedIsOneRow(words: seq<string>)
    requires forall i | 0 <= i < |words| :: Unbroken(words[i])
    ensures OneRow(Joined(words))
    decreases |words|
  {
    if |words| == 1 {
      assert Unbroken(words[0]);
    } else if words != [] {
      assert Unbroken(words[0]);
      JoinedIsOneRow(words[1..]);
    }
  }

  lemma WordsAreUnbroken()
    ensures forall s :: Word(s) ==> Unbroken(s)
  {
  }

  lemma LineIsOneRow(line: Line)
    requires NumbersFit(line) && NameFits(line)
    ensures OneRow(Joined(Fields(line)))
  {
    hide Fields, Unbroken, NameFits, NumbersFit, Joined, OneRow;
    FieldsAreWords(line);
    JoinedIsOneRow(Fields(line));
  }

  ghost predicate NamesFit(lines: seq<Line>)
  {
    forall k | 0 <= k < |lines| :: NameFits(lines[k])
  }

  lemma {:induction false} RowsAreRead(lines: seq<Line>)
    requires NamesFit(lines) && forall k | 0 <= k < |lines| :: NumbersFit(lines[k])
    ensures ReadRows(RowsOf(lines)) == Some(lines) && forall k | 0 <= k < |RowsOf(lines)| :: OneRow(RowsOf(lines)[k])
    decreases |lines|
  {
    hide Fields, Joined, Words, ReadWords, NameFits, NumbersFit, OneRow;
    if lines != [] {
      RowsAreRead(lines[1..]);
      FieldsAreRead(lines[0]);
      LineIsOneRow(lines[0]);
      assert lines == [lines[0]] + lines[1..];
      assert RowsOf(lines)[1..] == RowsOf(lines[1..]);
    }
  }

  lemma {:induction false} ReadFits(rows: seq<string>)
    ensures ReadRows(rows).Some? ==> NamesFit(ReadRows(rows).value)
    decreases |rows|
  {
    hide Words, ReadWords, NameFits;
    if rows != [] {
      ReadFits(rows[1..]);
      ReadNamesFit(Words(rows[0]));
    }
  }

  lemma CommentIsSkipped(comment: string, rows: seq<string>)
    requires comment != "" && comment[0] == '#'
    ensures ReadRows([comment] + rows) == ReadRows(rows)
  {
    assert ([comment] + rows)[1..] == rows;
    HashIsComment(comment);
  }

  lemma HashIsComment(s: string)
    requires s != "" && s[0] == '#'
    ensures ReadWords(Words(s)) == Comment
  {
    var end := WordEnd(s);
    assert end > 0 && s[..end][0] == '#';
  }

  // Any exported file reads back as exactly the lines that were written if and only if the names in
  // them fit.
  lemma FileRoundTrip(comment: string, lines: seq<Line>)
    requires comment != "" && comment[0] == '#' && OneRow(comment)
    requires forall k | 0 <= k < |lines| :: NumbersFit(lines[k])
    ensures ReadFile(FileOf(comment, lines)) == Some(lines) <==> NamesFit(lines)
  {
    hide NameFits, NumbersFit, OneRow, ReadRows, Rows, Written;
    CommentIsSkipped(comment, RowsOf(lines));
    if NamesFit(lines) {
      RowsAreRead(lines);
      RowsOfWritten([comment] + RowsOf(lines));
    } else {
      ReadFits(Rows(FileOf(comment, lines)));
    }
  }
}
