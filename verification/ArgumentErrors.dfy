/**
 Which requests a worker refuses before it does anything: which texts are numbers to strtol and strtoul, which
 arguments a text has, and so when a request is malformed and when it holds a bad value.
 */
module ArgumentErrors {
  import opened Common
  import opened Whitespace
  import opened ReplyCodec
  import opened Arguments

  // ---------------------------------------------------------------- numerals

  /** Whitespace up to i, then a sign if j > i, then nothing but digits, and at least one. */
  predicate NumeralAt(s: string, i: nat, j: nat) {
    && i <= j <= i + 1 && j < |s|
    && (forall k :: 0 <= k < i ==> IsSpace(s[k]))
    && (j > i ==> s[i] == '-' || s[i] == '+')
    && (forall k :: j <= k < |s| ==> '0' <= s[k] <= '9')
  }

  ghost predicate IsNumeral(s: string) {
    exists i: nat, j: nat :: NumeralAt(s, i, j)
  }

  /** The number that decimal digits stand for. */
  function DigitsValue(s: string): nat
    requires forall k :: 0 <= k < |s| ==> '0' <= s[k] <= '9'
  {
    if s == [] then 0 else 10 * DigitsValue(s[..|s| - 1]) + (s[|s| - 1] as int - '0' as int)
  }

  function NumeralValue(s: string, i: nat, j: nat): int
    requires NumeralAt(s, i, j)
  {
    var n: int := DigitsValue(s[j..]);
    if j > i && s[i] == '-' then -n else n
  }

  lemma {:induction false} ScanLastDigit(s: string, c: char, soFar: nat)
    requires IsDigit(c) && forall k :: 0 <= k < |s| ==> IsDigit(s[k])
    ensures ScanDigits(s, soFar).1 == []
    ensures ScanDigits(s + [c], soFar) == (10 * ScanDigits(s, soFar).0 + Value(c), [])
  {
    assert (s + [c])[1..] == if s == [] then [] else s[1..] + [c];
    if s != [] {
      ScanLastDigit(s[1..], c, 10 * soFar + Value(s[0]));
    }
  }

  lemma {:induction false} ScanIsValue(s: string)
    requires forall k :: 0 <= k < |s| ==> '0' <= s[k] <= '9'
    ensures ScanDigits(s, 0) == (DigitsValue(s), [])
  {
    if s != [] {
      var n := |s| - 1;
      ScanIsValue(s[..n]);
      ScanLastDigit(s[..n], s[n], 0);
      assert s == s[..n] + [s[n]];
    }
  }

  /** A printed number denotes itself in decimal. */
  lemma {:induction false} DigitsDenote(n: nat)
    ensures forall k :: 0 <= k < |Digits(n)| ==> '0' <= Digits(n)[k] <= '9'
    ensures DigitsValue(Digits(n)) == n
  {
    if n >= 10 {
      DigitsDenote(n / 10);
      assert Digits(n)[..|Digits(n)| - 1] == Digits(n / 10);
    } else {
      assert Digits(n)[..0] == [];
    }
  }

  lemma {:induction false} SkippedSpace(s: string, i: nat)
    requires i < |s| && !IsSpace(s[i]) && forall k :: 0 <= k < i ==> IsSpace(s[k])
    ensures SkipSpace(s) == s[i..]
  {
    if i > 0 {
      SkippedSpace(s[1..], i - 1);
      assert s[1..][i - 1..] == s[i..];
    }
  }

  /** A numeral is scanned whole, as the number it stands for. */
  lemma NumeralScans(s: string, i: nat, j: nat)
    requires NumeralAt(s, i, j)
    ensures ScanInt(s) == Some((NumeralValue(s, i, j), []))
  {
    SkippedSpace(s, i);
    var t := s[i..];
    assert t[j - i..] == s[j..];
    ScanIsValue(s[j..]);
    assert s[j..][0] == s[j];
  }

  /** How much whitespace a text starts with. */
  function Blanks(s: string): (i: nat)
    ensures i <= |s| && (forall k :: 0 <= k < i ==> IsSpace(s[k])) && (i < |s| ==> !IsSpace(s[i]))
    ensures SkipSpace(s) == s[i..]
  {
    if s != [] && IsSpace(s[0]) then 1 + Blanks(s[1..]) else 0
  }

  lemma {:induction false} UsedUp(s: string, soFar: nat)
    requires ScanDigits(s, soFar).1 == []
    ensures forall k :: 0 <= k < |s| ==> IsDigit(s[k])
  {
    if s != [] {
      UsedUp(s[1..], 10 * soFar + Value(s[0]));
    }
  }

  /** A text that is scanned whole is a numeral. */
  lemma ScannedIsNumeral(s: string)
    requires ScanInt(s).Some? && ScanInt(s).value.1 == []
    ensures IsNumeral(s)
  {
    var i := Blanks(s);
    var j := if s[i] == '-' || s[i] == '+' then i + 1 else i;
    var u := s[j..];
    assert s[i..][j - i..] == u;
    UsedUp(u[1..], Value(u[0]));
    forall k | j <= k < |s| ensures '0' <= s[k] <= '9' {
      assert s[k] == u[k - j] && IsDigit(u[0]);
      assert k > j ==> IsDigit(u[1..][k - j - 1]) && u[1..][k - j - 1] == u[k - j];
    }
    assert NumeralAt(s, i, j);
  }

  /** parse_int and parse_uint accept exactly the numerals. */
  lemma ParsesIffNumeral(s: string)
    ensures ParseLong(s).Some? <==> IsNumeral(s)
    ensures ParseULong(s).Some? <==> IsNumeral(s)
  {
    if i: nat, j: nat :| NumeralAt(s, i, j) {
      NumeralScans(s, i, j);
    }
    if ParseLong(s).Some? || ParseULong(s).Some? {
      ScannedIsNumeral(s);
    }
  }

  /** What they make of a numeral: strtol cuts it to the nearest long, strtoul counts a negative one down from 2 to the 64. */
  lemma NumeralParses(s: string, i: nat, j: nat)
    requires NumeralAt(s, i, j)
    ensures var n := NumeralValue(s, i, j);
            && ParseLong(s) == Some(if n < -0x8000_0000_0000_0000 then -0x8000_0000_0000_0000
                                    else if n > 0x7fff_ffff_ffff_ffff then 0x7fff_ffff_ffff_ffff else n)
            && ParseULong(s) == Some(if -0x1_0000_0000_0000_0000 < n < 0 then 0x1_0000_0000_0000_0000 + n
                                     else if 0 <= n < 0x1_0000_0000_0000_0000 then n else 0xffff_ffff_ffff_ffff)
  {
    NumeralScans(s, i, j);
  }

  // ---------------------------------------------------------------- arguments

  /** The maximal runs of characters other than blanks, in order. */
  function Runs(s: string): (rs: seq<string>)
    ensures s != [] && s[0] != ' ' ==> rs != []
  {
    if s == [] then []
    else if s[0] == ' ' then Runs(s[1..])
    else if |s| == 1 || s[1] == ' ' then [[s[0]]] + Runs(s[1..])
    else
      var rest := Runs(s[1..]);
      [[s[0]] + rest[0]] + rest[1..]
  }

  /** Where blanks are the only whitespace, as in every line a client sends, these are the words of the text. */
  lemma {:induction false} RunsAreWords(s: string)
    requires forall i :: 0 <= i < |s| && IsSpace(s[i]) ==> s[i] == ' '
    ensures Runs(s) == Words(s)
  {
    if s != [] {
      RunsAreWords(s[1..]);
    }
  }

  lemma {:induction false} RunsAfterBlanks(s: string)
    ensures Runs(SkipBlanks(s)) == Runs(s)
  {
    if s != [] && s[0] == ' ' {
      RunsAfterBlanks(s[1..]);
    }
  }

  lemma RunOfOne(s: string)
    requires s != [] && s[0] != ' ' && (|s| == 1 || s[1] == ' ')
    ensures UpToBlank(s) == [s[0]] && Runs(s) == [[s[0]]] + Runs(if |s| > 1 then s[2..] else [])
  {
    assert UpToBlank(s[1..]) == [];
    if |s| > 1 {
      assert s[1..][1..] == s[2..];
    } else {
      assert s[1..] == [];
    }
  }

  lemma {:induction false} FirstRun(s: string)
    requires s != [] && s[0] != ' '
    ensures var w := UpToBlank(s);
            w != [] && Runs(s) == [w] + Runs(if |w| < |s| then s[|w| + 1..] else [])
  {
    if |s| == 1 || s[1] == ' ' {
      RunOfOne(s);
    } else {
      FirstRun(s[1..]);
      var w := UpToBlank(s[1..]);
      var others := if |w| < |s[1..]| then s[1..][|w| + 1..] else [];
      assert others == if 1 + |w| < |s| then s[|w| + 2..] else [];
      assert Runs(s[1..])[0] == w && Runs(s[1..])[1..] == Runs(others);
    }
  }

  /** The text behind the first run of a text that starts with one, and the blank that ends it. */
  function AfterRun(t: string): (rest: string)
    ensures t != [] ==> |rest| < |t|
  {
    if |UpToBlank(t)| < |t| then t[|UpToBlank(t)| + 1..] else []
  }

  lemma FirstToken(s: string, n: nat)
    requires n > 0
    ensures var t := SkipBlanks(s);
            Tokens(s, n) == if t == [] then [] else [UpToBlank(t)] + Tokens(AfterRun(t), n - 1)
  {
  }

  lemma FirstRunOf(s: string)
    ensures var t := SkipBlanks(s);
            Runs(s) == if t == [] then [] else [UpToBlank(t)] + Runs(AfterRun(t))
  {
    RunsAfterBlanks(s);
    if SkipBlanks(s) != [] {
      FirstRun(SkipBlanks(s));
    }
  }

  function FirstFew<T>(s: seq<T>, n: nat): seq<T> {
    if n < |s| then s[..n] else s
  }

  lemma FirstFewMore<T>(x: T, s: seq<T>, n: nat)
    ensures FirstFew([x] + s, n + 1) == [x] + FirstFew(s, n)
    ensures FirstFew(s, 0) == []
  {
  }

  /** strtok_r hands out the runs one after another. */
  lemma {:induction false} TokensAreRuns(s: string, n: nat)
    ensures Tokens(s, n) == FirstFew(Runs(s), n)
    decreases n
  {
    if n == 0 {
    } else if SkipBlanks(s) == [] {
      FirstRunOf(s);
    } else {
      var w, rest := UpToBlank(SkipBlanks(s)), AfterRun(SkipBlanks(s));
      TokensAreRuns(rest, n - 1);
      OneMoreToken(s, n, w, rest);
    }
  }

  lemma OneMoreToken(s: string, n: nat, w: string, rest: string)
    requires n > 0 && SkipBlanks(s) != [] && w == UpToBlank(SkipBlanks(s)) && rest == AfterRun(SkipBlanks(s))
    requires Tokens(rest, n - 1) == FirstFew(Runs(rest), n - 1)
    ensures Tokens(s, n) == FirstFew(Runs(s), n)
  {
    FirstToken(s, n);
    FirstRunOf(s);
    FirstFewMore(w, Runs(rest), n - 1);
  }

  /** The field turns this argument down: it is no number, or for an index no number from 0 to the largest int. */
  ghost predicate TurnsDown(field: Field, w: string) {
    match field
    case Text => false
    case Signed => !IsNumeral(w)
    case Unsigned => !IsNumeral(w)
    case Index => forall i: nat, j: nat :: NumeralAt(w, i, j) ==> !(0 <= NumeralValue(w, i, j) <= 0x7fff_ffff)
  }

  lemma FieldTurnsDown(field: Field, w: string)
    ensures FieldValue(field, w) == None <==> TurnsDown(field, w)
  {
    ParsesIffNumeral(w);
    if i: nat, j: nat :| NumeralAt(w, i, j) {
      NumeralParses(w, i, j);
      forall i': nat, j': nat | NumeralAt(w, i', j') ensures NumeralValue(w, i', j') == NumeralValue(w, i, j) {
        NumeralScans(w, i, j);
        NumeralScans(w, i', j');
      }
    }
  }

  /** Arguments are good together exactly when each is. */
  lemma {:induction false} ValuesIff(fields: seq<Field>, ws: seq<string>)
    requires |fields| == |ws|
    ensures Values(fields, ws) == None <==> exists i :: 0 <= i < |fields| && TurnsDown(fields[i], ws[i])
    ensures Values(fields, ws).Some? ==> forall i :: 0 <= i < |fields| ==> Some(Values(fields, ws).value[i]) == FieldValue(fields[i], ws[i])
  {
    if fields != [] {
      FieldTurnsDown(fields[0], ws[0]);
      ValuesIff(fields[1..], ws[1..]);
      if i :| 0 <= i < |fields[1..]| && TurnsDown(fields[1..][i], ws[1..][i]) {
        assert TurnsDown(fields[i + 1], ws[i + 1]);
      }
      if i :| 0 <= i < |fields| && TurnsDown(fields[i], ws[i]) {
        assert i == 0 || TurnsDown(fields[1..][i - 1], ws[1..][i - 1]);
      }
    }
  }

  /** How many characters of a request a case's buffer has room for. */
  function Room(kind: TaskType): nat {
    if kind in {DESTROY_SPRITE, PLACEMENT_UP, PLACEMENT_DOWN, PLACEMENT_TOP, PLACEMENT_BOTTOM, DESTROY_PLACEMENT} then 63 else 127
  }

  /** The part of a request that a case's buffer holds. */
  function Held(kind: TaskType, request: string): string {
    var text := CString(request);
    if |text| <= Room(kind) then text else text[..Room(kind)]
  }

  /**
   What a case makes of its request, told from the text: malformed when it has fewer runs of non-blanks than the case
   takes arguments, a bad value when one of the first few is turned down by its field, and otherwise those runs, however
   many more follow.
   */
  lemma WhatIsParsed(kind: TaskType, request: string)
    ensures var fields, runs := Format(kind), Runs(Held(kind, request));
            && (Parsed(kind, request) == Malformed <==> |runs| < |fields|)
            && (Parsed(kind, request) == BadValue <==>
                  |runs| >= |fields| && exists i :: 0 <= i < |fields| && TurnsDown(fields[i], runs[i]))
            && (Parsed(kind, request).Args? ==> Parsed(kind, request).tokens == runs[..|fields|])
            && (Parsed(kind, request).Args? ==> forall i :: 0 <= i < |fields| ==>
                  Some(Parsed(kind, request).values[i]) == FieldValue(fields[i], runs[i]))
  {
    var fields, runs := Format(kind), Runs(Held(kind, request));
    HeldIsCopied(kind, request);
    TokensAreRuns(Held(kind, request), |fields|);
    if |runs| >= |fields| {
      assert Tokens(Held(kind, request), |fields|) == runs[..|fields|];
      ValuesOfFirst(fields, runs);
    }
  }

  lemma HeldIsCopied(kind: TaskType, request: string)
    ensures Held(kind, request) == Copied(request, BufferSize(kind))
  {
  }

  lemma ValuesOfFirst(fields: seq<Field>, runs: seq<string>)
    requires |runs| >= |fields|
    ensures Values(fields, runs[..|fields|]) == None <==> exists i :: 0 <= i < |fields| && TurnsDown(fields[i], runs[i])
    ensures Values(fields, runs[..|fields|]).Some? ==>
              forall i :: 0 <= i < |fields| ==> Some(Values(fields, runs[..|fields|]).value[i]) == FieldValue(fields[i], runs[i])
  {
    var first := runs[..|fields|];
    ValuesIff(fields, first);
    assert forall i :: 0 <= i < |fields| ==> first[i] == runs[i];
  }

  /** Words typed with single blanks between them are the arguments, if the buffer has room for them. */
  lemma WordsTypedBack(kind: TaskType, ws: seq<string>)
    requires AllWords(ws) && '\0' !in Joined(ws) && |Joined(ws)| <= Room(kind)
    ensures Runs(Held(kind, Joined(ws))) == ws
  {
    CStringNoNul(Joined(ws));
    JoinedIsTidy(ws);
    RunsAreWords(Joined(ws));
    WordsOfJoined(ws);
  }

  lemma ShareValues(id: nat, name: string)
    requires id <= INT_MAX
    ensures Values([Index, Text], [Decimal(id), name]) == Some([id, 0])
  {
    FieldTypedBack(Index, id);
    assert [Text][1..] == [] && [name][1..] == [];
    assert Values([Text], [name]) == Some([0] + []);
    assert [Index, Text][1..] == [Text] && [Decimal(id), name][1..] == [name] && [id] + ([0] + []) == [id, 0];
  }

  lemma ShareTokens(id: nat, name: string)
    requires IsWord(name) && '\0' !in name && |Decimal(id)| + 1 + |name| <= 127
    ensures Tokens(Copied(Decimal(id) + [' '] + name, MAX_RPC_BUF_LEN), 2) == [Decimal(id), name]
  {
    var ws := [Decimal(id), name];
    DecimalIsWord(id);
    DecimalHasNoNul(id);
    assert ws[1..] == [name] && Joined([name]) == name;
    assert Joined(ws) == Decimal(id) + [' '] + name;
    assert AllWords(ws) && '\0' !in Joined(ws) && |Joined(ws)| <= 127;
    WordsTypedBack(SHARE, ws);
    HeldIsCopied(SHARE, Joined(ws));
    TokensAreRuns(Held(SHARE, Joined(ws)), 2);
  }

  lemma ArgumentsAre(kind: TaskType, request: string, tokens: seq<string>, values: seq<int>)
    requires Tokens(Copied(request, BufferSize(kind)), |Format(kind)|) == tokens && |tokens| == |Format(kind)|
    requires Values(Format(kind), tokens) == Some(values)
    ensures Parsed(kind, request) == Args(tokens, values)
  {
  }

  /** A canvas and a name, typed in a request to share. */
  lemma ShareTypedBack(id: nat, name: string)
    requires id <= INT_MAX && IsWord(name) && '\0' !in name && |Decimal(id)| + 1 + |name| <= 127
    ensures Parsed(SHARE, Decimal(id) + [' '] + name) == Args([Decimal(id), name], [id, 0])
  {
    ShareTokens(id, name);
    ShareValues(id, name);
    ArgumentsAre(SHARE, Decimal(id) + [' '] + name, [Decimal(id), name], [id, 0]);
  }

  predicate IsLong(n: int) {
    -0x8000_0000_0000_0000 <= n < 0x8000_0000_0000_0000
  }

  predicate IsUlong(n: int) {
    0 <= n < 0x1_0000_0000_0000_0000
  }

  predicate AllLongs(values: seq<int>) {
    forall i :: 0 <= i < |values| ==> IsLong(values[i])
  }

  /** The numbers that each request for numbers alone takes as they are. */
  predicate Takes(kind: TaskType, values: seq<int>) {
    if kind == CREATE_CANVAS then |values| == 3 && IsUlong(values[0]) && IsUlong(values[1]) && IsLong(values[2])
    else if kind == CREATE_RECTANGLE then |values| == 4 && IsUlong(values[0]) && IsUlong(values[1]) && AllLongs(values[2..])
    else if kind == CREATE_CIRCLE then |values| == 3 && IsUlong(values[0]) && AllLongs(values[1..])
    else if kind == PLACE_SPRITE then |values| == 4 && AllLongs(values)
    else if kind == SET_ANIM_PARAM then |values| == 5 && AllLongs(values)
    else if kind == DESTROY_CANVAS then |values| == 1 && AllLongs(values)
    else if kind in {DESTROY_SPRITE, DESTROY_PLACEMENT, PLACEMENT_UP, PLACEMENT_DOWN, PLACEMENT_TOP, PLACEMENT_BOTTOM} then
      |values| == 1 && 0 <= values[0] < 0x8000_0000
    else false
  }

  /** Those numbers, typed with single blanks between them, are what the worker reads. */
  lemma TakenAsTyped(kind: TaskType, values: seq<int>)
    requires Takes(kind, values)
    ensures Parsed(kind, Joined(Texts(values))) == Args(Texts(values), values)
  {
    AcceptedIsTaken(kind, values);
    NumbersTypedBack(kind, values);
  }

  lemma AcceptedIsTaken(kind: TaskType, values: seq<int>)
    requires Takes(kind, values)
    ensures AllAccept(Format(kind), values)
  {
    if kind == CREATE_RECTANGLE {
      assert values[2..][0] == values[2] && values[2..][1] == values[3];
    } else if kind == CREATE_CIRCLE {
      assert values[1..][0] == values[1] && values[1..][1] == values[2];
    }
  }
}
