/** How a worker reads the arguments of a request (the strtok_r, strtol, strtoul and sscanf calls of server/src/threadpool.c). */
module Arguments {
  import opened Common
  import opened Whitespace
  import opened ReplyCodec

  const LONG_MIN: int := -0x8000_0000_0000_0000
  const LONG_MAX: int := 0x7fff_ffff_ffff_ffff
  const ULONG_MAX: int := 0xffff_ffff_ffff_ffff
  const MAX_FILENAME_LEN: nat := 128

  /** The string that strncpy and a final NUL leave in a buffer of this size. */
  function Copied(request: string, size: nat): string
    requires size > 0
  {
    var text := CString(request);
    if |text| < size then text else text[..size - 1]
  }

  // ---------------------------------------------------------------- tokens

  function SkipBlanks(s: string): (r: string)
    ensures |r| <= |s| && (r != [] ==> r[0] != ' ')
  {
    if s != [] && s[0] == ' ' then SkipBlanks(s[1..]) else s
  }

  /** The text up to the first blank. */
  function UpToBlank(s: string): (r: string)
    ensures r <= s && ' ' !in r
    ensures |r| < |s| ==> s[|r|] == ' '
  {
    if s == [] || s[0] == ' ' then [] else [s[0]] + UpToBlank(s[1..])
  }

  /** strtok_r with a single blank as delimiter: the next token, and where the call after it goes on. */
  function NextToken(s: string): (r: Option<(string, string)>)
    ensures r.Some? ==> |r.value.1| < |s|
  {
    var t := SkipBlanks(s);
    if t == [] then None
    else
      var token := UpToBlank(t);
      Some((token, if |token| < |t| then t[|token| + 1..] else []))
  }

  /** The first n tokens, or all of them when there are fewer. */
  function Tokens(s: string, n: nat): (ts: seq<string>)
    ensures |ts| <= n
    decreases n
  {
    if n == 0 then []
    else match NextToken(s)
      case None => []
      case Some((token, rest)) => [token] + Tokens(rest, n - 1)
  }

  // ---------------------------------------------------------------- numbers

  function Clamped(n: int, low: int, high: int): int {
    if n < low then low else if n > high then high else n
  }

  /** parse_int: strtol must use up the token; a value out of range is cut to the nearest long. */
  function ParseLong(token: string): Option<int> {
    match ScanInt(token)
    case None => None
    case Some((n, rest)) => if rest == [] then Some(Clamped(n, LONG_MIN, LONG_MAX)) else None
  }

  /** parse_uint: strtoul accepts a sign, and then negates modulo its range. */
  function ParseULong(token: string): Option<int> {
    match ScanInt(token)
    case None => None
    case Some((n, rest)) =>
      if rest != [] then None
      else Some(if n > ULONG_MAX || n < -ULONG_MAX then ULONG_MAX else if n < 0 then ULONG_MAX + 1 + n else n)
  }

  /** A long passed where an int is expected: the low 32 bits. */
  function ToInt(n: int): (r: int)
    ensures IsInt(r)
    ensures IsInt(n) <==> r == n
  {
    (n - INT_MIN) % 0x1_0000_0000 + INT_MIN
  }

  // ---------------------------------------------------------------- the argument lists

  /** What an argument is parsed as. An index must lie between 0 and the largest int. */
  datatype Field = Text | Signed | Unsigned | Index

  function Format(kind: TaskType): seq<Field> {
    match kind
    case CREATE_CANVAS => [Unsigned, Unsigned, Signed]
    case DESTROY_CANVAS => [Signed]
    case CREATE_SPRITE => [Text]
    case CREATE_RECTANGLE => [Unsigned, Unsigned, Signed, Signed]
    case CREATE_CIRCLE => [Unsigned, Signed, Signed]
    case PLACE_SPRITE => [Signed, Signed, Signed, Signed]
    case SET_ANIM_PARAM => [Signed, Signed, Signed, Signed, Signed]
    case SHARE => [Index, Text]
    case DESTROY_SPRITE => [Index]
    case PLACEMENT_UP => [Index]
    case PLACEMENT_DOWN => [Index]
    case PLACEMENT_TOP => [Index]
    case PLACEMENT_BOTTOM => [Index]
    case DESTROY_PLACEMENT => [Index]
    case _ => []
  }

  /** The size of the local buffer a case copies its request to. */
  function BufferSize(kind: TaskType): nat {
    if kind in {DESTROY_SPRITE, PLACEMENT_UP, PLACEMENT_DOWN, PLACEMENT_TOP, PLACEMENT_BOTTOM, DESTROY_PLACEMENT} then 64
    else MAX_RPC_BUF_LEN
  }

  function FieldValue(field: Field, token: string): Option<int> {
    match field
    case Text => Some(0)
    case Signed => ParseLong(token)
    case Unsigned => ParseULong(token)
    case Index =>
      var n := ParseLong(token);
      if n.Some? && 0 <= n.value <= INT_MAX then n else None
  }

  /** The values of all fields, if every one of them parses. */
  function Values(fields: seq<Field>, tokens: seq<string>): (r: Option<seq<int>>)
    requires |fields| == |tokens|
    ensures r.Some? ==> |r.value| == |fields|
  {
    if fields == [] then Some([])
    else
      var first, others := FieldValue(fields[0], tokens[0]), Values(fields[1..], tokens[1..]);
      if first.Some? && others.Some? then Some([first.value] + others.value) else None
  }

  datatype Arguments = Malformed | BadValue | Args(tokens: seq<string>, values: seq<int>)

  /** What a case makes of its request. */
  function Parsed(kind: TaskType, request: string): (r: Arguments)
    ensures r.Args? ==> |r.values| == |r.tokens| == |Format(kind)|
  {
    var format := Format(kind);
    var tokens := Tokens(Copied(request, BufferSize(kind)), |format|);
    if |tokens| < |format| then Malformed
    else match Values(format, tokens)
      case None => BadValue
      case Some(values) => Args(tokens, values)
  }

  /** sscanf's %s with a width: whitespace is skipped, then up to width other characters are taken. */
  function ScanWord(s: string, width: nat): (r: Option<(string, string)>)
    ensures r.Some? ==> |r.value.1| < |s|
  {
    var t := SkipSpace(s);
    var word := UpToSpace(t, width);
    if word == [] then None else Some((word, t[|word|..]))
  }

  function UpToSpace(s: string, width: nat): (r: string)
    ensures r <= s && |r| <= width
  {
    if s == [] || width == 0 || IsSpace(s[0]) then [] else [s[0]] + UpToSpace(s[1..], width - 1)
  }

  /** The arguments of a movie request: a canvas, a file name, the first and last frame, and the rate. */
  datatype Movie = Movie(canvas: int, filename: string, first: int, last: int, rate: int)

  /** sscanf's %d into an int: the low 32 bits of the long that was read. */
  function ScanIntArg(s: string): Option<(int, string)> {
    match ScanInt(s)
    case None => None
    case Some((n, rest)) => Some((ToInt(Clamped(n, LONG_MIN, LONG_MAX)), rest))
  }

  function ParsedMovie(request: string): (r: Option<Movie>)
    ensures r.Some? ==> 0 <= r.value.first <= r.value.last <= INT_MAX && r.value.rate > 0
  {
    match ScanIntArg(CString(request))
    case None => None
    case Some((canvas, r1)) => match ScanWord(r1, MAX_FILENAME_LEN - 1)
      case None => None
      case Some((filename, r2)) => match ScanIntArg(r2)
        case None => None
        case Some((first, r3)) => match ScanIntArg(r3)
          case None => None
          case Some((last, r4)) => match ScanIntArg(r4)
            case None => None
            case Some((rate, _)) =>
              if first < 0 || last < first || rate <= 0 then None
              else Some(Movie(canvas, filename, first, last, rate))
  }

  // ---------------------------------------------------------------- numbers typed back

  lemma {:induction false} BlankEndsToken(w: string, rest: string)
    requires ' ' !in w && (rest == [] || rest[0] == ' ')
    ensures UpToBlank(w + rest) == w
  {
    if w == [] {
      assert w + rest == rest;
    } else {
      assert (w + rest)[0] == w[0] && (w + rest)[1..] == w[1..] + rest;
      BlankEndsToken(w[1..], rest);
    }
  }

  /** A printed number in front of nothing, or of a blank and more, is the next token. */
  lemma DecimalIsToken(n: int, tail: string)
    ensures NextToken(Decimal(n)) == Some((Decimal(n), []))
    ensures NextToken(Decimal(n) + ([' '] + tail)) == Some((Decimal(n), tail))
  {
    var w := Decimal(n);
    DecimalIsWord(n);
    assert ' ' !in w;
    BlankEndsToken(w, []);
    assert w + [] == w;
    BlankEndsToken(w, [' '] + tail);
    var s := w + ([' '] + tail);
    assert s[0] == w[0] && s[|w| + 1..] == tail;
  }

  /** The tokens of numbers separated by blanks are the numbers. */
  lemma {:induction false} TokensOfTexts(values: seq<int>)
    ensures Tokens(Joined(Texts(values)), |values|) == Texts(values)
  {
    if values != [] {
      var n, others := values[0], values[1..];
      assert values == [n] + others;
      JoinedTexts(n, others);
      TextsCons(n, others);
      DecimalIsToken(n, Joined(Texts(others)));
      TokensOfTexts(others);
      assert Decimal(n) + [] == Decimal(n);
      assert others == [] ==> Tokens([], 0) == Texts(others);
    }
  }

  /** The numbers a field takes as they are. */
  predicate Accepts(field: Field, n: int) {
    match field
    case Text => false
    case Signed => LONG_MIN <= n <= LONG_MAX
    case Unsigned => 0 <= n <= ULONG_MAX
    case Index => 0 <= n <= INT_MAX
  }

  ghost predicate AllAccept(fields: seq<Field>, values: seq<int>) {
    |fields| == |values| && forall i :: 0 <= i < |values| ==> Accepts(fields[i], values[i])
  }

  lemma FieldTypedBack(field: Field, n: int)
    requires Accepts(field, n)
    ensures FieldValue(field, Decimal(n)) == Some(n)
  {
    ScanUndoesDecimal(n, []);
    assert Decimal(n) + [] == Decimal(n);
  }

  lemma {:induction false} ValuesTypedBack(fields: seq<Field>, values: seq<int>)
    requires AllAccept(fields, values)
    ensures |Texts(values)| == |fields| && Values(fields, Texts(values)) == Some(values)
  {
    TextsAreWords(values);
    if values != [] {
      assert values == [values[0]] + values[1..];
      TextsCons(values[0], values[1..]);
      FieldTypedBack(fields[0], values[0]);
      ValuesTypedBack(fields[1..], values[1..]);
      assert Texts(values)[1..] == Texts(values[1..]);
    }
  }

  lemma AcceptedLength(field: Field, n: int)
    requires Accepts(field, n)
    ensures |Decimal(n)| <= 20
  {
    assert Pow10(5) == 100000;
    assert Pow10(10) == 10000000000;
    assert Pow10(15) == 1000000000000000;
    assert Pow10(19) == 10000000000000000000;
    assert Pow10(20) == 100000000000000000000;
    DigitsLength(if n < 0 then -n else n, if n < 0 then 19 else 20);
  }

  lemma {:induction false} TypedLength(fields: seq<Field>, values: seq<int>)
    requires AllAccept(fields, values)
    ensures |Joined(Texts(values))| <= 21 * |values|
  {
    if values != [] {
      assert values == [values[0]] + values[1..];
      JoinedTexts(values[0], values[1..]);
      AcceptedLength(fields[0], values[0]);
      TypedLength(fields[1..], values[1..]);
    }
  }

  /** Numbers a request accepts, typed with single blanks between them, are read back as they are, for every kind. */
  lemma NumbersTypedBack(kind: TaskType, values: seq<int>)
    requires AllAccept(Format(kind), values)
    ensures Parsed(kind, Joined(Texts(values))) == Args(Texts(values), values)
  {
    TextsHaveNoNul(values);
    CStringNoNul(Joined(Texts(values)));
    TypedLength(Format(kind), values);
    TokensOfTexts(values);
    ValuesTypedBack(Format(kind), values);
  }

  lemma JoinedOne(n: int)
    ensures Texts([n]) == [Decimal(n)] && Joined(Texts([n])) == Decimal(n)
  {
    TextsCons(n, []);
    assert [n] + [] == [n] && [Decimal(n)] + Texts([]) == [Decimal(n)];
  }

  /** One number. */
  lemma NumberTypedBack(kind: TaskType, n: int)
    requires AllAccept(Format(kind), [n])
    ensures Parsed(kind, Decimal(n)) == Args([Decimal(n)], [n])
  {
    JoinedOne(n);
    NumbersTypedBack(kind, [n]);
  }

  // ---------------------------------------------------------------- a movie request typed in full

  lemma IntArgTypedBack(n: int, rest: string)
    requires IsInt(n) && (rest == [] || !IsDigit(rest[0]))
    ensures ScanIntArg(Decimal(n) + rest) == Some((n, rest))
    ensures ScanIntArg([' '] + (Decimal(n) + rest)) == Some((n, rest))
  {
    ScanUndoesDecimal(n, rest);
    ScanSpace(Decimal(n) + rest);
  }

  lemma {:induction false} WordUpToSpace(w: string, rest: string, width: nat)
    requires IsWord(w) && |w| <= width && (rest == [] || IsSpace(rest[0]))
    ensures UpToSpace(w + rest, width) == w
  {
    assert (w + rest)[0] == w[0] && (w + rest)[1..] == w[1..] + rest;
    if |w| == 1 {
      assert w[1..] + rest == rest;
      assert UpToSpace(rest, width - 1) == [];
    } else {
      WordUpToSpace(w[1..], rest, width - 1);
    }
  }

  lemma WordTypedBack(w: string, rest: string, width: nat)
    requires IsWord(w) && |w| <= width && (rest == [] || IsSpace(rest[0]))
    ensures ScanWord([' '] + (w + rest), width) == Some((w, rest))
  {
    var t := w + rest;
    assert ([' '] + t)[1..] == t && t[0] == w[0];
    assert SkipSpace([' '] + t) == t;
    WordUpToSpace(w, rest, width);
    assert t[|w|..] == rest;
  }

  /** The text of a movie request. */
  function MovieText(m: Movie): string {
    Decimal(m.canvas) + ([' '] + (m.filename + ([' '] + (Decimal(m.first) + ([' '] + (Decimal(m.last) + ([' '] + (Decimal(m.rate) + []))))))))
  }

  /** A movie request typed in full is read back as it was typed, exactly when its frames are in order and its rate is positive. */
  lemma MovieTypedBack(m: Movie)
    requires IsWord(m.filename) && '\0' !in m.filename && |m.filename| < 128
    requires IsInt(m.canvas) && IsInt(m.first) && IsInt(m.last) && IsInt(m.rate)
    ensures ParsedMovie(MovieText(m)) == if 0 <= m.first <= m.last && m.rate > 0 then Some(m) else None
  {
    DecimalHasNoNul(m.canvas);
    DecimalHasNoNul(m.first);
    DecimalHasNoNul(m.last);
    DecimalHasNoNul(m.rate);
    CStringNoNul(MovieText(m));
    var r4 := [' '] + (Decimal(m.rate) + []);
    var r3 := [' '] + (Decimal(m.last) + r4);
    var r2 := [' '] + (Decimal(m.first) + r3);
    var r1 := [' '] + (m.filename + r2);
    IntArgTypedBack(m.canvas, r1);
    WordTypedBack(m.filename, r2, MAX_FILENAME_LEN - 1);
    IntArgTypedBack(m.first, r3);
    IntArgTypedBack(m.last, r4);
    IntArgTypedBack(m.rate, []);
  }
}
