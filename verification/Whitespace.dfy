/** Whitespace clean-up of a C string, in place (sanitise_whitespace in misc/src/fifo.c). */
module Whitespace {

  /** isspace in the C locale. */
  predicate IsSpace(c: char): (r: bool)
    ensures r <==> c as int == 32 || 9 <= c as int <= 13
  {
    c == ' ' || c == '\t' || c == '\n' || c == '\r' || c == '\U{000B}' || c == '\U{000C}'
  }

  /** The C string a buffer holds: everything before its first NUL. */
  function CString(buf: seq<char>): (s: string)
    ensures '\0' !in s
    ensures |s| <= |buf|
  {
    if buf == [] || buf[0] == '\0' then [] else [buf[0]] + CString(buf[1..])
  }

  lemma {:induction false} CStringNoNul(s: string)
    requires '\0' !in s
    ensures CString(s) == s
  {
    if s != [] {
      CStringNoNul(s[1..]);
    }
  }

  /** The words of a text: its maximal runs of characters that are not whitespace, in order. */
  function Words(s: string): (ws: seq<string>)
    ensures s != [] && !IsSpace(s[0]) ==> ws != []
  {
    if s == [] then []
    else if IsSpace(s[0]) then Words(s[1..])
    else if |s| == 1 || IsSpace(s[1]) then [[s[0]]] + Words(s[1..])
    else
      var rest := Words(s[1..]);
      [[s[0]] + rest[0]] + rest[1..]
  }

  /** The words with one space between neighbours. */
  function Joined(ws: seq<string>): string {
    if ws == [] then []
    else if |ws| == 1 then ws[0]
    else ws[0] + [' '] + Joined(ws[1..])
  }

  /** What the clean-up is for: the same words, separated by single spaces. */
  function Clean(s: string): string {
    Joined(Words(s))
  }

  predicate IsWord(w: string) {
    w != [] && forall i :: 0 <= i < |w| ==> !IsSpace(w[i])
  }

  ghost predicate AllWords(ws: seq<string>) {
    forall i :: 0 <= i < |ws| ==> IsWord(ws[i])
  }

  // ---------------------------------------------------------------- words and joining

  lemma {:induction false} WordsAreWords(s: string)
    ensures AllWords(Words(s))
  {
    if s != [] {
      WordsAreWords(s[1..]);
    }
  }

  /** One more whitespace character adds no word. */
  lemma {:induction false} WordsSpace(s: string, c: char)
    requires IsSpace(c)
    ensures Words(s + [c]) == Words(s)
  {
    if s != [] {
      assert (s + [c])[1..] == s[1..] + [c];
      WordsSpace(s[1..], c);
    } else {
      assert (s + [c])[1..] == [];
    }
  }

  /** One more other character starts a word after whitespace or at the beginning. */
  lemma {:induction false} WordsStart(s: string, c: char)
    requires !IsSpace(c) && (s == [] || IsSpace(s[|s| - 1]))
    ensures Words(s + [c]) == Words(s) + [[c]]
  {
    if s == [] {
      assert (s + [c])[1..] == [] && Words([]) == [];
    } else {
      assert (s + [c])[1..] == s[1..] + [c];
      if |s| == 1 {
        assert s[1..] == [];
      }
      WordsStart(s[1..], c);
    }
  }

  /** The words with one more character at the end of the last one. */
  function Lengthened(ws: seq<string>, c: char): seq<string>
    requires ws != []
  {
    ws[..|ws| - 1] + [ws[|ws| - 1] + [c]]
  }

  lemma LengthenedCons(w: string, ws: seq<string>, c: char)
    requires ws != []
    ensures Lengthened([w] + ws, c) == [w] + Lengthened(ws, c)
  {
    assert ([w] + ws)[..|ws|] == [w] + ws[..|ws| - 1];
  }

  /** A character put in front of the first word does not get in the way of one put behind the last. */
  lemma LengthenedFront(a: char, ws: seq<string>, c: char)
    requires ws != []
    ensures Lengthened(ws, c) != []
    ensures Lengthened([[a] + ws[0]] + ws[1..], c) == [[a] + Lengthened(ws, c)[0]] + Lengthened(ws, c)[1..]
  {
    if |ws| == 1 {
      assert [a] + (ws[0] + [c]) == [a] + ws[0] + [c];
    } else {
      assert ws == [ws[0]] + ws[1..];
      LengthenedCons(ws[0], ws[1..], c);
      LengthenedCons([a] + ws[0], ws[1..], c);
    }
  }

  lemma WordsOfOne(a: char)
    requires !IsSpace(a)
    ensures Words([a]) == [[a]]
  {
    assert [a][1..] == [];
  }

  lemma WordsOfTwo(a: char, c: char)
    requires !IsSpace(a) && !IsSpace(c)
    ensures Words([a, c]) == [[a, c]]
  {
    WordsOfOne(c);
    assert [a, c][1..] == [c];
    assert [a] + [c] == [a, c] && [[c]][1..] == [];
  }

  /** Anywhere else it lengthens the last word. */
  lemma {:induction false} WordsGrow(s: string, c: char)
    requires !IsSpace(c) && s != [] && !IsSpace(s[|s| - 1])
    ensures Words(s) != []
    ensures Words(s + [c]) == Lengthened(Words(s), c)
  {
    if |s| == 1 {
      assert s == [s[0]] && s + [c] == [s[0], c];
      WordsOfOne(s[0]);
      WordsOfTwo(s[0], c);
    } else {
      WordsGrow(s[1..], c);
      WordsGrowStep(s, c);
    }
  }

  lemma WordsGrowStep(s: string, c: char)
    requires |s| > 1 && Words(s[1..]) != [] && Words(s[1..] + [c]) == Lengthened(Words(s[1..]), c)
    ensures Words(s) != [] && Words(s + [c]) == Lengthened(Words(s), c)
  {
    var t, r := s + [c], Words(s[1..]);
    assert t[0] == s[0] && t[1] == s[1] && t[1..] == s[1..] + [c];
    if IsSpace(s[0]) {
    } else if IsSpace(s[1]) {
      LengthenedCons([s[0]], r, c);
    } else {
      LengthenedFront(s[0], r, c);
    }
  }

  lemma {:induction false} JoinedAppend(ws: seq<string>, w: string)
    ensures Joined(ws + [w]) == if ws == [] then w else Joined(ws) + [' '] + w
  {
    if ws != [] {
      assert (ws + [w])[1..] == ws[1..] + [w];
      JoinedAppend(ws[1..], w);
    } else {
      assert ws + [w] == [w];
    }
  }

  lemma JoinedGrow(ws: seq<string>, c: char)
    requires ws != []
    ensures Joined(Lengthened(ws, c)) == Joined(ws) + [c]
  {
    var init, last := ws[..|ws| - 1], ws[|ws| - 1];
    assert ws == init + [last];
    JoinedAppend(init, last);
    JoinedAppend(init, last + [c]);
  }

  /** What the clean text becomes when one more character is read. */
  lemma CleanAppend(s: string, c: char)
    ensures Clean(s + [c]) ==
            if IsSpace(c) then Clean(s)
            else if s != [] && !IsSpace(s[|s| - 1]) then Clean(s) + [c]
            else if Clean(s) == [] then [c]
            else Clean(s) + [' ', c]
  {
    if IsSpace(c) {
      WordsSpace(s, c);
    } else if s != [] && !IsSpace(s[|s| - 1]) {
      WordsGrow(s, c);
      JoinedGrow(Words(s), c);
    } else {
      WordsStart(s, c);
      JoinedAppend(Words(s), [c]);
      WordsAreWords(s);
      if Words(s) != [] {
        assert IsWord(Words(s)[0]);
      }
    }
  }

  // ---------------------------------------------------------------- what clean text looks like

  lemma {:induction false} WordsPrefix(w: string, rest: string)
    requires IsWord(w) && (rest == [] || IsSpace(rest[0]))
    ensures Words(w + rest) == [w] + Words(rest)
  {
    assert (w + rest)[1..] == w[1..] + rest;
    if |w| == 1 {
      assert w[1..] + rest == rest && w == [w[0]];
    } else {
      WordsPrefix(w[1..], rest);
      assert w == [w[0]] + w[1..];
    }
  }

  /** Splitting undoes joining. */
  lemma {:induction false} WordsOfJoined(ws: seq<string>)
    requires AllWords(ws)
    ensures Words(Joined(ws)) == ws
  {
    if |ws| == 1 {
      WordsPrefix(ws[0], []);
      assert ws[0] + [] == ws[0];
    } else if |ws| > 1 {
      WordsOfJoined(ws[1..]);
      var rest := [' '] + Joined(ws[1..]);
      WordsPrefix(ws[0], rest);
      assert rest[1..] == Joined(ws[1..]);
      assert Joined(ws) == ws[0] + rest;
    }
  }

  /** Cleaning keeps the words, and cleaning twice is cleaning once. */
  lemma CleanKeepsWords(s: string)
    ensures Words(Clean(s)) == Words(s)
    ensures Clean(Clean(s)) == Clean(s)
  {
    WordsAreWords(s);
    WordsOfJoined(Words(s));
  }

  /** Nothing to clean: no whitespace at either end, no two in a row, and none but the space. */
  ghost predicate Tidy(s: string) {
    && (s != [] ==> !IsSpace(s[0]) && !IsSpace(s[|s| - 1]))
    && (forall i :: 0 <= i < |s| && IsSpace(s[i]) ==> s[i] == ' ')
    && (forall i :: 0 <= i < |s| - 1 ==> !(IsSpace(s[i]) && IsSpace(s[i + 1])))
  }

  lemma {:induction false} JoinedIsTidy(ws: seq<string>)
    requires AllWords(ws)
    ensures Tidy(Joined(ws))
    ensures ws != [] ==> Joined(ws) != []
  {
    if |ws| == 1 {
      assert IsWord(ws[0]);
    } else if |ws| > 1 {
      JoinedIsTidy(ws[1..]);
      assert IsWord(ws[0]);
      var w, rest := ws[0], Joined(ws[1..]);
      var s := w + [' '] + rest;
      assert Joined(ws) == s;
      forall i | 0 <= i < |s| - 1 ensures !(IsSpace(s[i]) && IsSpace(s[i + 1])) {
        if i > |w| {
          assert s[i] == rest[i - |w| - 1] && s[i + 1] == rest[i - |w|];
        }
      }
    }
  }

  /** A tidy text is its own clean form: cleaning changes exactly the untidy texts. */
  lemma CleanIffTidy(s: string)
    ensures Tidy(s) <==> Clean(s) == s
  {
    WordsAreWords(s);
    JoinedIsTidy(Words(s));
    if Tidy(s) {
      TidyIsClean(s);
    }
  }

  lemma TidyPrefix(s: string, k: nat)
    requires Tidy(s) && k <= |s| && (k > 0 ==> !IsSpace(s[k - 1]))
    ensures Tidy(s[..k])
  {
  }

  lemma {:induction false} TidyIsClean(s: string)
    requires Tidy(s)
    ensures Clean(s) == s
  {
    if s != [] {
      var n := |s|;
      var p, c := s[..n - 1], s[n - 1];
      assert s == p + [c];
      CleanAppend(p, c);
      if n > 1 && IsSpace(s[n - 2]) {
        var q := s[..n - 2];
        TidyPrefix(s, n - 2);
        TidyIsClean(q);
        assert p == q + [' '];
        CleanAppend(q, ' ');
      } else {
        TidyPrefix(s, n - 1);
        TidyIsClean(p);
      }
    }
  }

  /** Cleaning never lengthens a text. */
  lemma {:induction false} CleanLength(s: string)
    ensures |Clean(s)| <= |s|
    ensures s != [] && Clean(s) != [] && IsSpace(s[|s| - 1]) ==> |Clean(s)| + 1 <= |s|
  {
    if s != [] {
      var p, c := s[..|s| - 1], s[|s| - 1];
      assert s == p + [c];
      CleanLength(p);
      CleanAppend(p, c);
    }
  }

  // ---------------------------------------------------------------- the in-place algorithm

  lemma {:induction false} CStringTerminated(buf: seq<char>, n: nat)
    requires n < |buf| && buf[n] == '\0' && forall k :: 0 <= k < n ==> buf[k] != '\0'
    ensures CString(buf) == buf[..n]
  {
    if n > 0 {
      CStringTerminated(buf[1..], n - 1);
      assert buf[..n] == [buf[0]] + buf[1..][..n - 1];
    }
  }

  lemma CleanStep(input: string, r: nat)
    requires r < |input|
    ensures Clean(input[..r + 1]) ==
            if IsSpace(input[r]) then Clean(input[..r])
            else if r > 0 && !IsSpace(input[r - 1]) then Clean(input[..r]) + [input[r]]
            else if Clean(input[..r]) == [] then [input[r]]
            else Clean(input[..r]) + [' '] + [input[r]]
  {
    assert input[..r + 1] == input[..r] + [input[r]];
    CleanAppend(input[..r], input[r]);
  }

  lemma {:induction false} CleanHasNoNul(s: string)
    requires '\0' !in s
    ensures '\0' !in Clean(s)
  {
    if s != [] {
      CleanStep(s, |s| - 1);
      assert s[..|s| - 1 + 1] == s;
      CleanHasNoNul(s[..|s| - 1]);
    }
  }

  /** The buffer holds the clean text of its first n characters before the write cursor, and is unread from the read cursor on. */
  ghost predicate Compacting(buf: seq<char>, input: seq<char>, n: nat, read: nat, write: nat, inWhitespace: bool) {
    && |buf| == |input| && write <= read <= n < |input|
    && buf[..write] == Clean(input[..read])
    && (inWhitespace <==> read > 0 && IsSpace(input[read - 1]))
    && (inWhitespace && write > 0 ==> write < read)
    && forall k :: read <= k < |buf| ==> buf[k] == input[k]
  }

  lemma Compacted(buf: seq<char>, input: seq<char>, n: nat, write: nat)
    requires |buf| == |input| && write <= n < |input| && input[n] == '\0' && '\0' !in input[..n]
    requires buf[..write] == Clean(input[..n]) && buf[write] == '\0'
    ensures CString(buf) == Clean(CString(input)) && '\0' in buf
  {
    assert forall k :: 0 <= k < n ==> input[k] == input[..n][k];
    CStringTerminated(input, n);
    CleanHasNoNul(input[..n]);
    assert forall k :: 0 <= k < write ==> buf[k] == buf[..write][k];
    CStringTerminated(buf, write);
  }

  lemma CompactingStep(buf: seq<char>, input: seq<char>, n: nat, read: nat, write: nat, inWhitespace: bool)
    requires Compacting(buf, input, n, read, write, inWhitespace) && input[n] == '\0' && buf[read] != '\0'
    ensures read < n && buf[read] == input[read]
    ensures var c := input[read];
            if IsSpace(c) then Compacting(buf, input, n, read + 1, write, true)
            else if inWhitespace && write > 0 then
              Compacting(buf[write := ' '][write + 1 := c], input, n, read + 1, write + 2, false)
            else Compacting(buf[write := c], input, n, read + 1, write + 1, false)
  {
    var c := input[read];
    CleanStep(input, read);
    if IsSpace(c) {
    } else if inWhitespace && write > 0 {
      var buf' := buf[write := ' '][write + 1 := c];
      assert buf'[..write + 2] == buf[..write] + [' '] + [c];
    } else {
      var buf' := buf[write := c];
      assert buf'[..write + 1] == buf[..write] + [c];
    }
  }

  /**
   sanitise_whitespace: two cursors over one buffer. The write cursor never passes the read cursor, even
   when it emits a space and a character for one character read, so no unread input is overwritten.
   */
  method SanitiseWhitespace(str: array<char>)
    requires '\0' in str[..]
    modifies str
    ensures CString(str[..]) == Clean(old(CString(str[..]))) && '\0' in str[..]
    ensures forall k :: |old(CString(str[..]))| < k < str.Length ==> str[k] == old(str[k])
  {
    ghost var input := str[..];
    ghost var n := FirstNul(input);
    var read, write, inWhitespace := 0, 0, false;
    assert input[..0] == [];
    while str[read] != '\0'
      invariant Compacting(str[..], input, n, read, write, inWhitespace)
      decreases n - read
    {
      ghost var buf := str[..];
      CompactingStep(buf, input, n, read, write, inWhitespace);
      var c := str[read];
      read := read + 1;
      if IsSpace(c) {
        inWhitespace := true;
        continue;
      }
      ghost var start := write;
      if inWhitespace && write > 0 {
        str[write] := ' ';
        write := write + 1;
      }
      inWhitespace := false;
      str[write] := c;
      write := write + 1;
      assert str[..] == if write == start + 2 then buf[start := ' '][start + 1 := c] else buf[start := c];
    }
    ghost var buf := str[..];
    assert buf[read] == input[read];
    str[write] := '\0';
    assert str[..] == buf[write := '\0'];
    Compacted(str[..], input, n, write);
  }

  lemma {:induction false} FirstNul(buf: seq<char>) returns (n: nat)
    requires '\0' in buf
    ensures n < |buf| && buf[n] == '\0' && '\0' !in buf[..n] && |CString(buf)| == n
  {
    if buf[0] == '\0' {
      n := 0;
    } else {
      var m := FirstNul(buf[1..]);
      n := m + 1;
      assert buf[..n] == [buf[0]] + buf[1..][..m];
    }
  }
}
