/** The file of users and their balances, and the look-up a login makes in it (server/src/auth.c). */
module UserFile {
  import opened Common
  import opened Whitespace
  import opened Transport
  import opened ReplyCodec
  import opened Arguments

  const LINE_ROOM: nat := 63   // MAX_UTXT_LINEBUF_LEN without the terminating NUL

  /** What the user file says about a name. */
  datatype Account = Solvent(balance: int) | Broke | Unlisted

  /** The balance a clean line gives for this name; none when the line is somebody else's, or holds no number. */
  function BalanceOn(line: string, name: string): Option<int> {
    if |name| < |line| && line[..|name|] == name && IsSpace(line[|name|]) then
      match ScanInt(line[|name|..])
      case None => None
      case Some((n, _)) => Some(Clamped(n, LONG_MIN, LONG_MAX))
    else None
  }

  function Standing(balance: int): Account {
    if balance > 0 then Solvent(balance) else Broke
  }

  /** The first line with a balance for the name decides. */
  function AccountIn(text: string, name: string): Account
    decreases |text|
  {
    if text == [] then Unlisted
    else
      var (chunk, rest) := NextChunk(text, LINE_ROOM);
      match BalanceOn(Clean(CString(chunk)), name)
      case Some(balance) => Standing(balance)
      case None => AccountIn(rest, name)
  }

  /** Without a file nobody is listed. */
  function AccountOf(file: Option<string>, name: string): Account {
    if file.Some? then AccountIn(file.value, name) else Unlisted
  }

  /** usertxt_get_balance; the file is None when it cannot be opened. */
  method GetBalance(file: Option<string>, username: string) returns (account: Account)
    ensures account == AccountOf(file, username)
  {
    if file.None? {
      return Unlisted;
    }
    var left, len := file.value, |username|;
    while left != []
      invariant AccountIn(left, username) == AccountIn(file.value, username)
      decreases |left|
    {
      var (chunk, rest) := NextChunk(left, LINE_ROOM);
      var buffer := Clean(CString(chunk));
      left := rest;
      if |buffer| < len || buffer[..len] != username {
        continue;
      }
      if |buffer| == len || !IsSpace(buffer[len]) {
        continue;
      }
      var scanned := ScanInt(buffer[len..]);
      if scanned.None? {
        continue;
      }
      var balance := Clamped(scanned.value.0, LONG_MIN, LONG_MAX);
      return if balance > 0 then Solvent(balance) else Broke;
    }
    account := Unlisted;
  }

  // ---------------------------------------------------------------- a file as it is meant to be

  datatype Listing = Listing(name: string, balance: int)

  /** A name and a balance on a line that fits the buffer. */
  ghost predicate Listable(l: Listing) {
    && IsWord(l.name) && '\0' !in l.name && LONG_MIN <= l.balance <= LONG_MAX
    && |l.name| + 1 + |Decimal(l.balance)| <= 63
  }

  function Line(l: Listing): string {
    l.name + [' '] + Decimal(l.balance)
  }

  function FileText(ls: seq<Listing>): string {
    if ls == [] then [] else Line(ls[0]) + ['\n'] + FileText(ls[1..])
  }

  /** A line with one blank in it speaks of the name before the blank, and of no other, whatever name is asked for. */
  lemma LineTells(l: Listing, name: string)
    requires Listable(l)
    ensures BalanceOn(Line(l), name) == if name == l.name then Some(l.balance) else None
  {
    var line, digits, k := Line(l), Decimal(l.balance), |l.name|;
    DecimalIsWord(l.balance);
    assert line == l.name + ([' '] + digits);
    if name == l.name {
      assert line[..k] == l.name && line[k..] == [' '] + digits;
      ScanUndoesDecimal(l.balance, []);
      assert digits + [] == digits;
      ScanSpace(digits);
    } else if |name| == k {
      assert line[..k] == l.name;
    } else if |name| < |line| {
      assert line[|name|] == if |name| < k then l.name[|name|] else digits[|name| - k - 1];
    }
  }

  /** Cleaning leaves a line as it is, and takes off its newline. */
  lemma LineIsClean(l: Listing)
    requires Listable(l)
    ensures Clean(CString(Line(l))) == Line(l) && Clean(CString(Line(l) + ['\n'])) == Line(l)
    ensures '\n' !in Line(l)
  {
    var line, ws := Line(l), [l.name, Decimal(l.balance)];
    DecimalIsWord(l.balance);
    DecimalHasNoNul(l.balance);
    assert ws[1..] == [Decimal(l.balance)] && Joined(ws[1..]) == Decimal(l.balance);
    assert AllWords(ws) && Joined(ws) == line;
    WordsOfJoined(ws);
    WordsSpace(line, '\n');
    CStringNoNul(line);
    CStringNoNul(line + ['\n']);
  }

  /** One line of the file decides, or leaves it to the lines after it. */
  lemma OneLineOfFile(l: Listing, rest: string, name: string)
    requires Listable(l)
    ensures AccountIn(Line(l) + ['\n'] + rest, name) == if name == l.name then Standing(l.balance) else AccountIn(rest, name)
  {
    var line := Line(l);
    LineIsClean(l);
    LineTells(l, name);
    if |line| < LINE_ROOM {
      FgetsLine(line, rest, LINE_ROOM);
    } else {
      assert line + ['\n'] + rest == line + (['\n'] + rest);
      FgetsFull(line, ['\n'] + rest, LINE_ROOM);
      NewlineIsSkipped(rest, name);
    }
  }

  lemma NewlineIsSkipped(rest: string, name: string)
    ensures AccountIn(['\n'] + rest, name) == AccountIn(rest, name)
  {
    var text := ['\n'] + rest;
    assert text[1..] == rest;
    assert NextChunk(text, LINE_ROOM) == (['\n'], rest);
    CStringNoNul(['\n']);
    assert [] + ['\n'] == ['\n'];
    WordsSpace([], '\n');
    assert Clean(CString(['\n'])) == [];
  }

  /** The position of the first listing of this name, or the number of listings. */
  function FirstOf(ls: seq<Listing>, name: string): (i: nat)
    ensures i <= |ls| && (i < |ls| ==> ls[i].name == name)
    ensures forall j :: 0 <= j < i ==> ls[j].name != name
  {
    if ls == [] || ls[0].name == name then 0 else 1 + FirstOf(ls[1..], name)
  }

  /**
   In a file of names and balances, whatever is asked for, the answer is that of the first listing under exactly this
   name: solvent with its balance if that is positive, broke if it is not, and unlisted when there is none.
   */
  lemma {:induction false} FirstListingDecides(ls: seq<Listing>, name: string)
    requires forall i :: 0 <= i < |ls| ==> Listable(ls[i])
    ensures var i := FirstOf(ls, name);
            AccountOf(Some(FileText(ls)), name) ==
            if i == |ls| then Unlisted else if ls[i].balance > 0 then Solvent(ls[i].balance) else Broke
  {
    if ls != [] {
      OneLineOfFile(ls[0], FileText(ls[1..]), name);
      FirstListingDecides(ls[1..], name);
    }
  }

  /**
   The limit is real: a listing one character too long for the buffer is read without the last digit of its balance,
   which is what its user is then let in with.
   */
  lemma LongListingIsCut(l: Listing, rest: string)
    requires IsWord(l.name) && '\0' !in l.name && 10 <= l.balance <= LONG_MAX && |Line(l)| == 64
    ensures AccountOf(Some(Line(l) + ['\n'] + rest), l.name) == Solvent(l.balance / 10)
  {
    var cut := Listing(l.name, l.balance / 10);
    var last := [Digit(l.balance % 10)] + ['\n'] + rest;
    LineIsClean(cut);
    LineTells(cut, l.name);
    assert Line(l) + ['\n'] + rest == Line(cut) + last;
    FgetsFull(Line(cut), last, LINE_ROOM);
  }
}
