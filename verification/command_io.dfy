/**
 * The serial console front end: the line editor that collects received
 * bytes into a command line (command_io_update, run_command) and the
 * tokenizer that splits a command line into arguments in place (make_argv).
 */
module CommandIo {
  import opened Common

  /** Size of the command receive buffer; a line holds at most RX_BUFSIZE - 2 bytes. */
  const RX_BUFSIZE: nat := 256
  const MAX_LINE: nat := RX_BUFSIZE - 2
  const ASCII_BS: char := 0x08 as char
  const ASCII_LF: char := 0x0A as char
  const ASCII_CR: char := 0x0D as char
  /** A line that ends in CR is dispatched after this many milliseconds without input. */
  const IDLE_FLUSH_MS: nat := 50
  /** command_proc hands make_argv an argv array of 16 entries. */
  const MAX_ARGC: nat := 16

  // ---------------------------------------------------------------------
  // C strings and the tokenizer specification
  // ---------------------------------------------------------------------

  /** The index of the first NUL at or after i (the array's end if there is none). */
  function Strlen(a: seq<char>, i: nat): (e: nat)
    requires i <= |a|
    ensures i <= e <= |a|
    ensures forall k :: i <= k < e ==> a[k] != '\0'
    ensures e == |a| || a[e] == '\0'
    decreases |a| - i
  {
    if i < |a| && a[i] != '\0' then Strlen(a, i + 1) else i
  }

  /** The string a NUL-terminated buffer holds. */
  function CString(a: seq<char>): seq<char> {
    a[..Strlen(a, 0)]
  }

  /** make_argv's delimiter set " \t\r\n". */
  predicate IsDelim(c: char) {
    c == ' ' || c == '\t' || c == '\r' || c == '\n'
  }

  predicate IsQuote(c: char) {
    c == '\'' || c == '"'
  }

  /** The first index at or after p that is not a delimiter. */
  function SkipDelims(s: seq<char>, p: nat): (q: nat)
    requires p <= |s|
    ensures p <= q <= |s|
    ensures q == |s| || !IsDelim(s[q])
    decreases |s| - p
  {
    if p < |s| && IsDelim(s[p]) then SkipDelims(s, p + 1) else p
  }

  /** strchr: the first index at or after p holding c, or |s| when there is none. */
  function FindChar(s: seq<char>, p: nat, c: char): (e: nat)
    requires p <= |s|
    ensures p <= e <= |s|
    ensures e == |s| || s[e] == c
    decreases |s| - p
  {
    if p < |s| && s[p] != c then FindChar(s, p + 1, c) else p
  }

  /** The end of the run of non-delimiters starting at p. */
  function RunEnd(s: seq<char>, p: nat): (e: nat)
    requires p <= |s|
    ensures p <= e <= |s|
    ensures e == |s| || IsDelim(s[e])
    decreases |s| - p
  {
    if p < |s| && !IsDelim(s[p]) then RunEnd(s, p + 1) else p
  }

  /** Everything SkipDelims passes over is a delimiter. */
  lemma {:induction false} SkipDelimsSkips(s: seq<char>, p: nat)
    requires p <= |s|
    ensures forall k :: p <= k < SkipDelims(s, p) ==> IsDelim(s[k])
    decreases |s| - p
  {
    if p < |s| && IsDelim(s[p]) {
      SkipDelimsSkips(s, p + 1);
    }
  }

  /** c does not occur before the index FindChar returns. */
  lemma {:induction false} FindCharFirst(s: seq<char>, p: nat, c: char)
    requires p <= |s|
    ensures forall k :: p <= k < FindChar(s, p, c) ==> s[k] != c
    decreases |s| - p
  {
    if p < |s| && s[p] != c {
      FindCharFirst(s, p + 1, c);
    }
  }

  /** The run RunEnd measures holds no delimiter. */
  lemma {:induction false} RunEndRun(s: seq<char>, p: nat)
    requires p <= |s|
    ensures forall k :: p <= k < RunEnd(s, p) ==> !IsDelim(s[k])
    decreases |s| - p
  {
    if p < |s| && !IsDelim(s[p]) {
      RunEndRun(s, p + 1);
    }
  }

  /** A plain word, the text between a matched pair of quotes, or an unmatched quote and the rest of the line. */
  datatype Kind = Word | Quoted | Unmatched

  /**
   * A token: argv points at `begin`; its text ends at `end`, where make_argv
   * writes a NUL when `cut` holds (otherwise `end` is the string's own terminator).
   */
  datatype Token = Token(kind: Kind, begin: nat, end: nat, cut: bool)

  /** Where a token's opening character is: the quote for a quoted token, its first character otherwise. */
  function Opening(t: Token): int {
    if t.kind == Quoted then t.begin - 1 else t.begin
  }

  /** What each kind of token is, in terms of the characters around it. */
  predicate Shaped(s: seq<char>, t: Token) {
    t.begin <= t.end <= |s| &&
    match t.kind
    case Word =>
      t.begin < t.end && !IsQuote(s[t.begin]) &&
      (forall k :: t.begin <= k < t.end ==> !IsDelim(s[k])) &&
      (t.end == |s| || IsDelim(s[t.end])) && (t.cut <==> t.end < |s|)
    case Quoted =>
      1 <= t.begin && IsQuote(s[t.begin - 1]) && t.end < |s| && s[t.end] == s[t.begin - 1] &&
      (forall k :: t.begin <= k < t.end ==> s[k] != s[t.begin - 1]) && t.cut
    case Unmatched =>
      t.begin < t.end == |s| && IsQuote(s[t.begin]) &&
      (forall k :: t.begin < k < |s| ==> s[k] != s[t.begin]) && !t.cut
  }

  /**
   * One round of make_argv's outer loop from index p: delimiters are skipped;
   * a quote opens a token that runs to the same quote character (or,
   * unmatched, is the rest of the string including the quote); anything else
   * opens a token that runs to the next delimiter. None when only delimiters
   * remain.
   */
  function NextToken(s: seq<char>, p: nat): (r: Option<Token>)
    requires p <= |s|
    ensures r.Some? ==> p <= Opening(r.value) && r.value.begin <= r.value.end <= |s|
    ensures r.Some? ==> (r.value.cut <==> r.value.end < |s|)
  {
    var q := SkipDelims(s, p);
    if q == |s| then None else Some(TokenAt(s, q))
  }

  /** The token whose opening character is at q. */
  function TokenAt(s: seq<char>, q: nat): (t: Token)
    requires q < |s|
    ensures q <= Opening(t) && t.begin <= t.end <= |s|
    ensures t.cut <==> t.end < |s|
  {
    if IsQuote(s[q]) then
      var e := FindChar(s, q + 1, s[q]);
      if e < |s| then Token(Quoted, q + 1, e, true) else Token(Unmatched, q, |s|, false)
    else
      var e := RunEnd(s, q);
      Token(Word, q, e, e < |s|)
  }

  /**
   * The tokens make_argv finds in s from index p when argv has room for all
   * of them: after a cut token scanning resumes right behind the NUL; a token
   * without a cut reaches the end of the string and is the last.
   */
  function Tokens(s: seq<char>, p: nat): (r: seq<Token>)
    requires p <= |s|
    decreases |s| - p
  {
    match NextToken(s, p)
    case None => []
    case Some(t) => if t.cut then [t] + Tokens(s, t.end + 1) else [t]
  }

  /** Writing the NUL that ends a cut token. */
  function Mark(b: seq<char>, t: Token): (r: seq<char>)
    ensures |r| == |b|
    ensures forall k :: 0 <= k < |b| && k != t.end ==> r[k] == b[k]
    ensures t.cut && t.end < |b| ==> r[t.end] == '\0'
    ensures !t.cut ==> r == b
  {
    if t.cut && t.end < |b| then b[t.end := '\0'] else b
  }

  /** The buffer after make_argv has recorded the first n of toks: a NUL written at the end of each cut one. */
  function Cut(a: seq<char>, toks: seq<Token>, n: nat): (r: seq<char>)
    requires n <= |toks|
    ensures |r| == |a|
  {
    if n == 0 then a else Mark(Cut(a, toks, n - 1), toks[n - 1])
  }

  /** The part of buf from p on still holds s, unmodified, followed by its terminator. */
  ghost predicate Unread(buf: array<char>, s: seq<char>, p: nat)
    reads buf
  {
    p <= |s| < buf.Length && buf[|s|] == '\0' && buf[p..|s|] == s[p..] && '\0' !in s
  }

  /**
   * make_argv: splits the NUL-terminated string in buf into its tokens,
   * keeping the first maxArgc; writes the NUL of each kept cut token into
   * buf in place; argv holds the index of each kept token's first character.
   */
  method MakeArgv(buf: array<char>, maxArgc: nat) returns (argv: seq<nat>)
    requires '\0' in buf[..]
    modifies buf
    ensures |argv| == Min(maxArgc, |Tokens(CString(old(buf[..])), 0)|)
    ensures forall i :: 0 <= i < |argv| ==> argv[i] == Tokens(CString(old(buf[..])), 0)[i].begin
    ensures buf[..] == Cut(old(buf[..]), Tokens(CString(old(buf[..])), 0), |argv|)
  {
    ghost var a := buf[..];
    ghost var s := CString(a);
    ghost var full := Tokens(s, 0);
    assert Unread(buf, s, 0) by {
      var z :| 0 <= z < |a| && a[z] == '\0';
    }
    var p := 0;
    argv := [];
    while buf[p] != '\0' && |argv| < maxArgc
      invariant Unread(buf, s, p)
      invariant |argv| <= |full| && |argv| <= maxArgc
      invariant forall i :: 0 <= i < |argv| ==> argv[i] == full[i].begin
      invariant Tokens(s, p) == full[|argv|..]
      invariant buf[..] == Cut(a, full, |argv|)
      decreases |s| - p
    {
      var found;
      found, argv, p := Record(buf, a, s, full, argv, p);
      if !found {
        break;
      }
    }
    if buf[p] == '\0' {
      TokensEnd(s, p);
    }
  }

  /**
   * The body of make_argv's outer loop: skips delimiters and, when a token
   * follows, records it in argv, cuts it in buf and moves p behind it;
   * otherwise reports that none is left.
   */
  method Record(buf: array<char>, ghost a: seq<char>, ghost s: seq<char>, ghost full: seq<Token>,
                argv: seq<nat>, p: nat)
    returns (found: bool, argv': seq<nat>, p': nat)
    requires Unread(buf, s, p) && |argv| <= |full|
    requires forall i :: 0 <= i < |argv| ==> argv[i] == full[i].begin
    requires Tokens(s, p) == full[|argv|..]
    requires buf[..] == Cut(a, full, |argv|)
    modifies buf
    ensures Unread(buf, s, p') && |argv'| <= |full|
    ensures forall i :: 0 <= i < |argv'| ==> argv'[i] == full[i].begin
    ensures Tokens(s, p') == full[|argv'|..]
    ensures buf[..] == Cut(a, full, |argv'|)
    ensures found ==> p < p' && |argv'| == |argv| + 1
    ensures !found ==> argv' == argv && |argv| == |full|
  {
    var q := SkipDelimsIn(buf, s, p);
    UnreadAt(buf, s, p, q);
    if buf[q] == '\0' {
      TokensEnd(s, p);
      return false, argv, p;
    }
    UnreadShift(buf, s, p, q);
    var begin, next;
    ghost var t: Token;
    begin, next, t := ArgAt(buf, s, q);
    Advance(s, full, |argv|, p, t, next);
    found := true;
    argv' := argv + [begin];
    p' := next;
  }

  /** The token at q, which is not the terminator: its start, where the scan resumes, and its NUL written. */
  method ArgAt(buf: array<char>, ghost s: seq<char>, q: nat)
    returns (begin: nat, next: nat, ghost t: Token)
    requires Unread(buf, s, q) && q < |s|
    modifies buf
    ensures t == TokenAt(s, q) && begin == t.begin
    ensures next == (if t.cut then t.end + 1 else |s|) && q < next && Unread(buf, s, next)
    ensures buf[..] == Mark(old(buf[..]), t)
  {
    UnreadAt(buf, s, q, q);
    if buf[q] == '\'' || buf[q] == '"' {
      UnreadShift(buf, s, q, q + 1);
      var e := FindCharIn(buf, s, q + 1, buf[q]);
      UnreadAt(buf, s, q, e);
      if buf[e] != '\0' {
        t := Token(Quoted, q + 1, e, true);
        begin := q + 1;
        UnreadShift(buf, s, q, e + 1);
        buf[e] := '\0';
        next := e + 1;
      } else {
        t := Token(Unmatched, q, |s|, false);
        begin := q;
        next := e;
      }
    } else {
      var e := RunEndIn(buf, s, q);
      UnreadAt(buf, s, q, e);
      t := Token(Word, q, e, e < |s|);
      begin := q;
      next := e;
      if buf[e] != '\0' {
        UnreadShift(buf, s, q, e + 1);
        buf[e] := '\0';
        next := e + 1;
      }
    }
  }

  /** What Unread says about one position. */
  lemma UnreadAt(buf: array<char>, s: seq<char>, p: nat, k: nat)
    requires Unread(buf, s, p) && p <= k <= |s|
    ensures buf[k] == if k == |s| then '\0' else s[k]
    ensures k < |s| ==> s[k] != '\0'
  {
    if k < |s| {
      assert buf[p..|s|][k - p] == s[p..][k - p];
    }
  }

  /** Unread holds for every later start. */
  lemma UnreadShift(buf: array<char>, s: seq<char>, p: nat, k: nat)
    requires Unread(buf, s, p) && p <= k <= |s|
    ensures Unread(buf, s, k)
  {
    assert buf[k..|s|] == buf[p..|s|][k - p..];
  }

  /** The token found from p0 is the next one of the whole list, and the scan resumes with the rest. */
  lemma Advance(s: seq<char>, full: seq<Token>, n: nat, p0: nat, t: Token, p: nat)
    requires p0 <= |s| && n <= |full|
    requires NextToken(s, p0) == Some(t) && p == (if t.cut then t.end + 1 else |s|)
    requires Tokens(s, p0) == full[n..]
    ensures p <= |s| && n < |full| && full[n] == t
    ensures Tokens(s, p) == full[n + 1..]
  {
    if !t.cut {
      TokensEnd(s, p);
    }
    assert Tokens(s, p0) == [t] + Tokens(s, p);
    assert full[n..][0] == t;
    assert full[n + 1..] == full[n..][1..];
  }

  /** No token is found at the end of the string or when only delimiters remain. */
  lemma TokensEnd(s: seq<char>, p: nat)
    requires p <= |s|
    requires p == |s| || NextToken(s, p).None?
    ensures Tokens(s, p) == []
  {
    if p == |s| {
      assert SkipDelims(s, p) == p;
    }
  }

  /** The inner delimiter-skipping loop of make_argv. */
  method SkipDelimsIn(buf: array<char>, ghost s: seq<char>, p: nat) returns (q: nat)
    requires Unread(buf, s, p)
    ensures q == SkipDelims(s, p)
  {
    q := p;
    while buf[q] != '\0' && IsDelim(buf[q])
      invariant p <= q <= |s|
      invariant SkipDelims(s, q) == SkipDelims(s, p)
      decreases |s| - q
    {
      UnreadAt(buf, s, p, q);
      q := q + 1;
    }
    UnreadAt(buf, s, p, q);
  }

  /** strchr(buf + p, c) on the unread part of buf: |s| when c does not occur. */
  method FindCharIn(buf: array<char>, ghost s: seq<char>, p: nat, c: char) returns (e: nat)
    requires Unread(buf, s, p)
    ensures e == FindChar(s, p, c)
  {
    e := p;
    while buf[e] != '\0' && buf[e] != c
      invariant p <= e <= |s|
      invariant FindChar(s, e, c) == FindChar(s, p, c)
      decreases |s| - e
    {
      UnreadAt(buf, s, p, e);
      e := e + 1;
    }
    UnreadAt(buf, s, p, e);
  }

  /**
   * The word-scanning loop of make_argv. Its further test argc < max_argc
   * cannot fail inside the loop, since the count is raised only after it.
   */
  method RunEndIn(buf: array<char>, ghost s: seq<char>, p: nat) returns (e: nat)
    requires Unread(buf, s, p)
    ensures e == RunEnd(s, p)
  {
    e := p;
    while buf[e] != '\0' && !IsDelim(buf[e])
      invariant p <= e <= |s|
      invariant RunEnd(s, e) == RunEnd(s, p)
      decreases |s| - e
    {
      UnreadAt(buf, s, p, e);
      e := e + 1;
    }
    UnreadAt(buf, s, p, e);
  }

  // ---------------------------------------------------------------------
  // Properties of the tokenizer
  // ---------------------------------------------------------------------

  /** Tokens lie in s after p, in order and disjoint; only the last may lack a cut, which it lacks exactly when it reaches the end of s. */
  predicate Ordered(s: seq<char>, toks: seq<Token>, p: nat) {
    (forall i :: 0 <= i < |toks| ==>
       p <= toks[i].begin <= toks[i].end <= |s| && (toks[i].cut <==> toks[i].end < |s|)) &&
    (forall i, j :: 0 <= i < j < |toks| ==> toks[i].cut && toks[i].end < toks[j].begin)
  }

  lemma OrderedCons(s: seq<char>, t: Token, rest: seq<Token>, p: nat)
    requires p <= t.begin <= t.end < |s| && t.cut
    requires Ordered(s, rest, t.end + 1)
    ensures Ordered(s, [t] + rest, p)
  {
    var r := [t] + rest;
    forall i | 0 <= i < |r|
      ensures p <= r[i].begin <= r[i].end <= |s| && (r[i].cut <==> r[i].end < |s|)
    {
      if i > 0 {
        assert r[i] == rest[i - 1];
      }
    }
    forall i, j | 0 <= i < j < |r|
      ensures r[i].cut && r[i].end < r[j].begin
    {
      assert r[j] == rest[j - 1];
      assert t.end + 1 <= rest[j - 1].begin;
      if i == 0 {
        assert r[i] == t;
      } else {
        assert r[i] == rest[i - 1];
        assert rest[i - 1].cut && rest[i - 1].end < rest[j - 1].begin;
      }
    }
    assert Ordered(s, r, p);
  }

  /** The tokens lie in the string after p, in order, and do not overlap; only the last may lack a cut. */
  lemma {:induction false} TokensOrdered(s: seq<char>, p: nat)
    requires p <= |s|
    ensures Ordered(s, Tokens(s, p), p)
    decreases |s| - p
  {
    if NextToken(s, p).Some? {
      var t := NextToken(s, p).value;
      if t.cut {
        TokensOrdered(s, t.end + 1);
        OrderedCons(s, t, Tokens(s, t.end + 1), p);
      }
    }
  }

  /**
   * The token found from p has the shape of its kind and only delimiters
   * precede its opening character; without a token, only delimiters remain.
   */
  lemma NextTokenShape(s: seq<char>, p: nat)
    requires p <= |s|
    ensures NextToken(s, p).Some? ==> Shaped(s, NextToken(s, p).value)
    ensures NextToken(s, p).Some? ==> forall k :: p <= k < Opening(NextToken(s, p).value) ==> IsDelim(s[k])
    ensures NextToken(s, p).None? ==> forall k :: p <= k < |s| ==> IsDelim(s[k])
  {
    var q := SkipDelims(s, p);
    SkipDelimsSkips(s, p);
    if q < |s| {
      if IsQuote(s[q]) {
        FindCharFirst(s, q + 1, s[q]);
      } else {
        RunEndRun(s, q);
      }
    }
  }

  /**
   * Every token has the shape of its kind: a word is a maximal run of
   * non-delimiters, a quoted token is the (possibly empty) text up to the
   * matching quote, and an unmatched quote gives the rest of the string,
   * quote included, as the last token.
   */
  lemma TokenShapes(s: seq<char>, p: nat)
    requires p <= |s|
    ensures forall i :: 0 <= i < |Tokens(s, p)| ==> Shaped(s, Tokens(s, p)[i])
    ensures forall i :: 0 <= i < |Tokens(s, p)| - 1 ==> Tokens(s, p)[i].kind != Unmatched
  {
    forall i | 0 <= i < |Tokens(s, p)|
      ensures Shaped(s, Tokens(s, p)[i])
      ensures i < |Tokens(s, p)| - 1 ==> Tokens(s, p)[i].kind != Unmatched
    {
      ShapeAt(s, p, i);
    }
  }

  lemma {:induction false} ShapeAt(s: seq<char>, p: nat, i: nat)
    requires p <= |s| && i < |Tokens(s, p)|
    ensures Shaped(s, Tokens(s, p)[i])
    ensures i < |Tokens(s, p)| - 1 ==> Tokens(s, p)[i].kind != Unmatched
    decreases |s| - p
  {
    var r := Tokens(s, p);
    NextTokenShape(s, p);
    var t := NextToken(s, p).value;
    assert r[0] == t;
    if t.cut {
      var rest := Tokens(s, t.end + 1);
      assert r == [t] + rest;
      if i > 0 {
        ShapeAt(s, t.end + 1, i - 1);
        assert r[i] == rest[i - 1];
      }
    } else {
      assert r == [t];
    }
  }

  /**
   * Without quote characters, every token is a word that starts at p or
   * right after a delimiter.
   */
  lemma {:induction false} UnquotedWords(s: seq<char>, p: nat)
    requires p <= |s|
    requires forall k :: p <= k < |s| ==> !IsQuote(s[k])
    ensures forall i :: 0 <= i < |Tokens(s, p)| ==>
      Tokens(s, p)[i].kind == Word && p <= Tokens(s, p)[i].begin <= |s| &&
      (Tokens(s, p)[i].begin == p || IsDelim(s[Tokens(s, p)[i].begin - 1]))
    decreases |s| - p
  {
    var r := Tokens(s, p);
    NextTokenShape(s, p);
    if NextToken(s, p).Some? {
      var t := NextToken(s, p).value;
      assert r[0] == t;
      if t.cut {
        var rest := Tokens(s, t.end + 1);
        assert r == [t] + rest;
        UnquotedWords(s, t.end + 1);
        forall i | 1 <= i < |r|
          ensures r[i].kind == Word && p <= r[i].begin <= |s| && (r[i].begin == p || IsDelim(s[r[i].begin - 1]))
        {
          assert r[i] == rest[i - 1];
        }
      }
    }
  }

  /**
   * Without quote characters every non-delimiter lies inside a token:
   * together with UnquotedWords, the tokens are exactly the maximal runs of
   * non-delimiters.
   */
  lemma UnquotedCovered(s: seq<char>, p: nat)
    requires p <= |s|
    requires forall k :: p <= k < |s| ==> !IsQuote(s[k])
    ensures forall k :: p <= k < |s| && !IsDelim(s[k]) ==> InToken(Tokens(s, p), k)
  {
    forall k | p <= k < |s| && !IsDelim(s[k])
      ensures InToken(Tokens(s, p), k)
    {
      CoveredAt(s, p, k);
    }
  }

  /** Position k lies inside one of the tokens. */
  predicate InToken(toks: seq<Token>, k: nat) {
    exists i :: 0 <= i < |toks| && toks[i].begin <= k < toks[i].end
  }

  lemma {:induction false} CoveredAt(s: seq<char>, p: nat, k: nat)
    requires p <= k < |s| && !IsDelim(s[k])
    requires forall k :: p <= k < |s| ==> !IsQuote(s[k])
    ensures exists i :: 0 <= i < |Tokens(s, p)| && Tokens(s, p)[i].begin <= k < Tokens(s, p)[i].end
    decreases |s| - p
  {
    var r := Tokens(s, p);
    NextTokenShape(s, p);
    var t := NextToken(s, p).value;
    assert t.kind == Word;
    assert r[0] == t;
    if k < t.end {
      assert r[0].begin <= k < r[0].end;
    } else {
      var rest := Tokens(s, t.end + 1);
      assert r == [t] + rest;
      CoveredAt(s, t.end + 1, k);
      var j :| 0 <= j < |rest| && rest[j].begin <= k < rest[j].end;
      assert r[j + 1] == rest[j];
    }
  }

  /** Where Cut has written a NUL for one of the first n tokens. */
  predicate CutAt(toks: seq<Token>, n: nat, k: nat) {
    exists i :: 0 <= i < n && i < |toks| && toks[i].cut && toks[i].end == k
  }

  lemma {:induction false} CutChars(a: seq<char>, toks: seq<Token>, n: nat, k: nat)
    requires n <= |toks| && k < |a|
    requires forall i :: 0 <= i < n ==> (toks[i].cut ==> toks[i].end < |a|)
    ensures Cut(a, toks, n)[k] == if CutAt(toks, n, k) then '\0' else a[k]
    decreases n
  {
    if n > 0 {
      CutChars(a, toks, n - 1, k);
      var t := toks[n - 1];
      if CutAt(toks, n, k) && !(t.cut && t.end == k) {
        var i :| 0 <= i < n && i < |toks| && toks[i].cut && toks[i].end == k;
        assert i < n - 1;
      }
    }
  }

  /**
   * The arguments read back from the buffer make_argv leaves: the string at
   * each argv entry runs exactly to the token's end and holds the token's text
   * as it was in the original string, and every byte of the buffer is either
   * unchanged or a NUL written at a kept token's end.
   */
  lemma ArgvReadBack(a: seq<char>, maxArgc: nat)
    requires '\0' in a
    ensures var s := CString(a);
      var toks := Tokens(s, 0);
      var n := Min(maxArgc, |toks|);
      var b := Cut(a, toks, n);
      Ordered(s, toks, 0) && |s| < |a| &&
      (forall i :: 0 <= i < n ==>
         Strlen(b, toks[i].begin) == toks[i].end && b[toks[i].begin..toks[i].end] == s[toks[i].begin..toks[i].end]) &&
      (forall k :: 0 <= k < |a| ==> b[k] == a[k] || (b[k] == '\0' && CutAt(toks, n, k)))
  {
    var s := CString(a);
    assert Holds(a, s) by {
      var z :| 0 <= z < |a| && a[z] == '\0';
    }
    var toks := Tokens(s, 0);
    TokensOrdered(s, 0);
    var n := Min(maxArgc, |toks|);
    var b := Cut(a, toks, n);
    forall k | 0 <= k < |a|
      ensures b[k] == if CutAt(toks, n, k) then '\0' else a[k]
    {
      CutChars(a, toks, n, k);
    }
    forall i | 0 <= i < n
      ensures Strlen(b, toks[i].begin) == toks[i].end
      ensures b[toks[i].begin..toks[i].end] == s[toks[i].begin..toks[i].end]
    {
      ReadBackOne(a, s, b, toks, n, i);
    }
  }

  /** a holds the C string s: its characters, then the terminator. */
  predicate Holds(a: seq<char>, s: seq<char>) {
    |s| < |a| && a[|s|] == '\0' && forall k :: 0 <= k < |s| ==> a[k] == s[k] && s[k] != '\0'
  }

  lemma ReadBackOne(a: seq<char>, s: seq<char>, b: seq<char>, toks: seq<Token>, n: nat, i: nat)
    requires Holds(a, s) && Ordered(s, toks, 0) && i < n <= |toks| && |b| == |a|
    requires forall k :: 0 <= k < |a| ==> b[k] == if CutAt(toks, n, k) then '\0' else a[k]
    ensures Strlen(b, toks[i].begin) == toks[i].end
    ensures b[toks[i].begin..toks[i].end] == s[toks[i].begin..toks[i].end]
  {
    var t := toks[i];
    forall k | t.begin <= k < t.end
      ensures b[k] == s[k] && b[k] != '\0'
    {
      NoCutInside(s, toks, n, i, k);
    }
    if !t.cut {
      assert b[t.end] == a[|s|];
    } else {
      assert CutAt(toks, n, t.end);
    }
    StrlenAt(b, t.begin, t.end);
  }

  /** No token ends strictly inside another, so make_argv writes no NUL there. */
  lemma NoCutInside(s: seq<char>, toks: seq<Token>, n: nat, i: nat, k: nat)
    requires Ordered(s, toks, 0) && i < |toks|
    requires toks[i].begin <= k < toks[i].end
    ensures !CutAt(toks, n, k)
  {
    forall j | 0 <= j < |toks| && toks[j].cut
      ensures toks[j].end != k
    {
      if j < i {
        assert toks[j].end < toks[i].begin;
      } else if j > i {
        assert toks[i].end < toks[j].begin <= toks[j].end;
      }
    }
  }

  /** Strlen finds the first NUL. */
  lemma StrlenAt(b: seq<char>, i: nat, e: nat)
    requires i <= e < |b|
    requires forall k :: i <= k < e ==> b[k] != '\0'
    requires b[e] == '\0'
    ensures Strlen(b, i) == e
  {
  }

  // ---------------------------------------------------------------------
  // The line editor
  // ---------------------------------------------------------------------

  /** The line being edited and the lines handed to the command processor, in order. */
  datatype Edit = Edit(line: seq<char>, dispatched: seq<seq<char>>)

  /**
   * One received byte: a backspace drops the last byte (if any); a byte
   * other than LF that follows a buffered CR first dispatches the buffered
   * line; a byte is stored while the line is shorter than MAX_LINE; an LF
   * dispatches the line, stored or not.
   */
  function Step(line: seq<char>, d: char): (r: Edit)
    requires |line| <= MAX_LINE
    ensures |r.line| <= MAX_LINE
  {
    if d == ASCII_BS then
      Edit(if |line| > 0 then line[..|line| - 1] else line, [])
    else
      var flush := d != ASCII_LF && |line| > 0 && line[|line| - 1] == ASCII_CR;
      var kept := if flush then [] else line;
      var stored := if |kept| < MAX_LINE then kept + [d] else kept;
      var before := if flush then [line] else [];
      if d == ASCII_LF then Edit([], before + [stored]) else Edit(stored, before)
  }

  /** The bytes of one update applied in order. */
  function Feed(line: seq<char>, input: seq<char>): (r: Edit)
    requires |line| <= MAX_LINE
    ensures |r.line| <= MAX_LINE
    decreases |input|
  {
    if input == [] then Edit(line, [])
    else
      var e := Feed(line, input[..|input| - 1]);
      var f := Step(e.line, input[|input| - 1]);
      Edit(f.line, e.dispatched + f.dispatched)
  }

  /** The idle flush: a line ending in CR is dispatched once no byte has come for IDLE_FLUSH_MS. */
  function IdleFlush(line: seq<char>, idle: nat): Edit {
    if idle >= IDLE_FLUSH_MS && |line| > 0 && line[|line| - 1] == ASCII_CR then Edit([], [line]) else Edit(line, [])
  }

  function Flatten(lines: seq<seq<char>>): seq<char> {
    if lines == [] then [] else Flatten(lines[..|lines| - 1]) + lines[|lines| - 1]
  }

  /**
   * Without backspaces and without overflowing the buffer, no byte is lost or
   * reordered: the dispatched lines followed by the line still being edited
   * are the old line followed by the input.
   */
  lemma {:induction false} FeedKeepsBytes(line: seq<char>, input: seq<char>)
    requires |line| + |input| <= MAX_LINE
    requires forall k :: 0 <= k < |input| ==> input[k] != ASCII_BS
    ensures Flatten(Feed(line, input).dispatched) + Feed(line, input).line == line + input
    decreases |input|
  {
    if input == [] {
      assert line + input == line;
      assert Flatten([]) + line == line;
    } else {
      var front := input[..|input| - 1];
      var d := input[|input| - 1];
      assert input == front + [d];
      FeedKeepsBytes(line, front);
      var e := Feed(line, front);
      LineLength(e.dispatched, e.line, line + front);
      var f := Step(e.line, d);
      StepKeepsBytes(e.line, d);
      assert Feed(line, input) == Edit(f.line, e.dispatched + f.dispatched);
      Concatenate(e.dispatched, e.line, f.dispatched, f.line, line + front, d);
    }
  }

  lemma LineLength(ed: seq<seq<char>>, el: seq<char>, x: seq<char>)
    requires Flatten(ed) + el == x
    ensures |el| <= |x|
  {
    assert |Flatten(ed) + el| == |x|;
  }

  /** The bookkeeping step of FeedKeepsBytes, on sequences only. */
  lemma Concatenate(ed: seq<seq<char>>, el: seq<char>, fd: seq<seq<char>>, fl: seq<char>, x: seq<char>, d: char)
    requires Flatten(ed) + el == x
    requires Flatten(fd) + fl == el + [d]
    ensures Flatten(ed + fd) + fl == x + [d]
  {
    FlattenAppend(ed, fd);
    calc {
      Flatten(ed + fd) + fl;
      (Flatten(ed) + Flatten(fd)) + fl;
      Flatten(ed) + (Flatten(fd) + fl);
      Flatten(ed) + (el + [d]);
      (Flatten(ed) + el) + [d];
    }
  }

  /** One byte other than a backspace, with room to store it, is neither lost nor reordered. */
  lemma StepKeepsBytes(l: seq<char>, d: char)
    requires |l| < MAX_LINE && d != ASCII_BS
    ensures Flatten(Step(l, d).dispatched) + Step(l, d).line == l + [d]
  {
    var f := Step(l, d);
    if d != ASCII_LF && |l| > 0 && l[|l| - 1] == ASCII_CR {
      FlattenOne(l);
      assert f == Edit([d], [l]);
    } else if d == ASCII_LF {
      assert f == Edit([], [l + [d]]);
      FlattenOne(l + [d]);
    } else {
      assert f == Edit(l + [d], []);
      assert Flatten([]) == [];
    }
  }

  lemma FlattenOne(x: seq<char>)
    ensures Flatten([x]) == x
  {
    assert [x][..0] == [];
  }

  lemma {:induction false} FlattenAppend(xs: seq<seq<char>>, ys: seq<seq<char>>)
    ensures Flatten(xs + ys) == Flatten(xs) + Flatten(ys)
    decreases |ys|
  {
    if ys != [] {
      var front := ys[..|ys| - 1];
      var y := ys[|ys| - 1];
      FlattenAppend(xs, front);
      assert (xs + ys)[..|xs + ys| - 1] == xs + front;
      assert (xs + ys)[|xs + ys| - 1] == y;
      calc {
        Flatten(xs + ys);
        Flatten(xs + front) + y;
        (Flatten(xs) + Flatten(front)) + y;
        Flatten(xs) + (Flatten(front) + y);
        Flatten(xs) + Flatten(ys);
      }
    } else {
      assert xs + ys == xs;
    }
  }

  /** How a dispatched line ends: in CR or LF, or at the buffer's limit. */
  predicate Terminated(l: seq<char>) {
    0 < |l| <= MAX_LINE && (l[|l| - 1] == ASCII_CR || l[|l| - 1] == ASCII_LF || |l| == MAX_LINE)
  }

  /** Every line handed to the command processor ends in CR or LF, unless the buffer filled up. */
  lemma {:induction false} DispatchedLinesTerminated(line: seq<char>, input: seq<char>, idle: nat)
    requires |line| <= MAX_LINE
    ensures forall j :: 0 <= j < |Feed(line, input).dispatched| ==> Terminated(Feed(line, input).dispatched[j])
    ensures forall j :: 0 <= j < |IdleFlush(line, idle).dispatched| ==> Terminated(IdleFlush(line, idle).dispatched[j])
    decreases |input|
  {
    if input != [] {
      DispatchedLinesTerminated(line, input[..|input| - 1], idle);
    }
  }

  /** A backspace undoes the byte just typed, provided it was stored and dispatched nothing. */
  lemma BackspaceUndoes(line: seq<char>, d: char)
    requires |line| < MAX_LINE
    requires d != ASCII_BS && d != ASCII_LF
    requires |line| == 0 || line[|line| - 1] != ASCII_CR
    ensures Step(line, d) == Edit(line + [d], [])
    ensures Step(Step(line, d).line, ASCII_BS) == Edit(line, [])
  {
    assert (line + [d])[..|line|] == line;
  }

  /**
   * The console's receive state: RxBuf, RxDataLength and LastInputTick.
   */
  class LineEditor {
    var rxBuf: array<char>
    var rxLength: nat
    var lastInputTick: nat

    ghost predicate Valid()
      reads this
    {
      rxBuf.Length == RX_BUFSIZE && rxLength <= MAX_LINE && IsU32(lastInputTick)
    }

    /** The line being edited. */
    ghost function Line(): seq<char>
      reads this, rxBuf
      requires Valid()
    {
      rxBuf[..rxLength]
    }

    /** command_io_init: an empty line, with the idle timer started at `now`. */
    constructor (now: nat)
      requires IsU32(now)
      ensures Valid() && Line() == [] && lastInputTick == now
      ensures fresh(rxBuf)
    {
      rxBuf := new char[RX_BUFSIZE](_ => '\0');
      rxLength := 0;
      lastInputTick := now;
    }

    /**
     * run_command: NUL-terminates the line, hands it to the command processor
     * (returned here) and empties the buffer.
     */
    method RunCommand() returns (line: seq<char>)
      requires Valid()
      modifies rxBuf, this`rxLength
      ensures Valid() && Line() == [] && line == old(Line())
      ensures rxBuf[0] == '\0' && rxBuf[|line|] == '\0'
    {
      rxBuf[rxLength] := '\0';
      line := rxBuf[..rxLength];
      rxBuf[0] := '\0';
      rxLength := 0;
    }

    /**
     * One byte received by command_io_update: restarts the idle timer and
     * edits the line as Step says, running the commands it dispatches.
     */
    method Receive(now: nat, d: char) returns (lines: seq<seq<char>>)
      requires Valid() && IsU32(now)
      modifies this`rxLength, this`lastInputTick, rxBuf
      ensures Valid() && lastInputTick == now
      ensures Edit(Line(), lines) == Step(old(Line()), d)
    {
      lastInputTick := now;
      if d == ASCII_BS {
        lines := [];
        if rxLength > 0 {
          rxLength := rxLength - 1;
        }
      } else {
        lines := Put(d);
      }
    }

    /** A received byte other than a backspace. */
    method Put(d: char) returns (lines: seq<seq<char>>)
      requires Valid() && d != ASCII_BS
      modifies this`rxLength, rxBuf
      ensures Valid()
      ensures Edit(Line(), lines) == Step(old(Line()), d)
    {
      ghost var line := Line();
      ghost var flush := d != ASCII_LF && |line| > 0 && line[|line| - 1] == ASCII_CR;
      lines := [];
      if d != ASCII_LF && rxLength > 0 && rxBuf[rxLength - 1] == ASCII_CR {
        var l := RunCommand();
        lines := [l];
      }
      assert Line() == (if flush then [] else line);
      Append(d);
      if d == ASCII_LF {
        var l := RunCommand();
        lines := lines + [l];
      }
    }

    /** Stores a byte at the end of the line while there is room for it. */
    method Append(d: char)
      requires Valid()
      modifies this`rxLength, rxBuf
      ensures Valid()
      ensures Line() == if |old(Line())| < MAX_LINE then old(Line()) + [d] else old(Line())
    {
      if rxLength < MAX_LINE {
        ghost var kept := Line();
        rxBuf[rxLength] := d;
        rxLength := rxLength + 1;
        assert Line() == kept + [d];
      }
    }

    /**
     * command_io_update: applies the bytes read from the USB link in this
     * call (`input`, empty when DSR is off or nothing was received), then
     * performs the idle flush; returns the dispatched command lines in order.
     */
    method Update(now: nat, input: seq<char>) returns (lines: seq<seq<char>>)
      requires Valid() && IsU32(now)
      modifies this`rxLength, this`lastInputTick, rxBuf
      ensures Valid()
      ensures lastInputTick == if input == [] then old(lastInputTick) else now
      ensures Line() == IdleFlush(Feed(old(Line()), input).line, Elapsed(now, lastInputTick)).line
      ensures lines == Feed(old(Line()), input).dispatched +
                       IdleFlush(Feed(old(Line()), input).line, Elapsed(now, lastInputTick)).dispatched
    {
      ghost var line0 := Line();
      lines := [];
      var i := 0;
      while i < |input|
        invariant Valid() && 0 <= i <= |input|
        invariant Feed(line0, input[..i]) == Edit(Line(), lines)
        invariant lastInputTick == if i == 0 then old(lastInputTick) else now
      {
        var ls := Receive(now, input[i]);
        assert input[..i + 1][..i] == input[..i];
        lines := lines + ls;
        i := i + 1;
      }
      assert input[..i] == input;
      var ls := IdleCheck(now);
      lines := lines + ls;
    }

    /** The end of command_io_update: dispatches a line ending in CR once the input has been idle long enough. */
    method IdleCheck(now: nat) returns (lines: seq<seq<char>>)
      requires Valid() && IsU32(now)
      modifies this`rxLength, rxBuf
      ensures Valid()
      ensures Edit(Line(), lines) == IdleFlush(old(Line()), Elapsed(now, lastInputTick))
    {
      lines := [];
      if Elapsed(now, lastInputTick) >= IDLE_FLUSH_MS && rxLength > 0 && rxBuf[rxLength - 1] == ASCII_CR {
        var l := RunCommand();
        lines := [l];
      }
    }
  }
}
