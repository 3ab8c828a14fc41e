// The S-expression reader and printer that the action compressor works on.
module SExpressions {
  import opened Prelude

  datatype Sexp = Atom(text: string) | List(items: seq<Sexp>)

  /** The text ended inside an expression. */
  datatype ReadError = OutOfTokens

  // ---- text to tokens ----

  predicate IsSpace(c: char) {
    c == ' ' || '\t' <= c <= '\r' || '\U{1C}' <= c <= '\U{1F}'
  }

  predicate IsWordChar(c: char) {
    !IsSpace(c) && c != '(' && c != ')'
  }

  function LowerChar(c: char): char {
    if 'A' <= c <= 'Z' then (c as int + 32) as char else c
  }

  function Lower(s: string): (r: string)
    ensures |r| == |s|
  {
    seq(|s|, i requires 0 <= i < |s| => LowerChar(s[i]))
  }

  function DropLine(s: string): (r: string)
    ensures |r| <= |s|
  {
    if s == [] || s[0] == '\n' then s else DropLine(s[1..])
  }

  /** A semicolon starts a comment that runs to the end of its line. */
  function StripComments(s: string): (r: string)
    ensures |r| <= |s|
    ensures forall c | c in r :: c != ';' && c in s
    decreases |s|
  {
    if s == [] then []
    else if s[0] == ';' then
      var t := DropLine(s);
      DropLineKeeps(s);
      StripComments(if t == s then s[1..] else t)
    else [s[0]] + StripComments(s[1..])
  }

  lemma {:induction false} DropLineKeeps(s: string)
    ensures forall c | c in DropLine(s) :: c in s
  {
    if s != [] && s[0] != '\n' {
      DropLineKeeps(s[1..]);
    }
  }

  function WordLength(s: string): (n: nat)
    ensures n <= |s| && (forall i | 0 <= i < n :: IsWordChar(s[i])) && (n < |s| ==> !IsWordChar(s[n]))
  {
    if s == [] || !IsWordChar(s[0]) then 0 else 1 + WordLength(s[1..])
  }

  /** Parentheses are tokens of their own; every maximal run of other non-space characters is one too. */
  function Tokens(s: string): seq<string>
    decreases |s|
  {
    if s == [] then []
    else if IsSpace(s[0]) then Tokens(s[1..])
    else if !IsWordChar(s[0]) then [s[..1]] + Tokens(s[1..])
    else [s[..WordLength(s)]] + Tokens(s[WordLength(s)..])
  }

  // ---- tokens to trees ----

  type Reading = Result<(Sexp, seq<string>), ReadError>

  /** One expression from the front of the tokens, and the tokens after it. */
  function ReadOne(toks: seq<string>): (r: Reading)
    ensures r.Ok? ==> |r.value.1| < |toks| && r.value.1 == toks[|toks| - |r.value.1|..]
    decreases |toks|, 0
  {
    if toks == [] then Err(OutOfTokens)
    else if toks[0] == "(" then
      var (items, rest) :- ReadItems(toks[1..]);
      Ok((List(items), rest))
    else Ok((Atom(Lower(toks[0])), toks[1..]))
  }

  /** Expressions up to the closing parenthesis. */
  function ReadItems(toks: seq<string>): (r: ItemsReading)
    ensures r.Ok? ==> |r.value.1| < |toks| && r.value.1 == toks[|toks| - |r.value.1|..]
    decreases |toks|, 1
  {
    if toks == [] then Err(OutOfTokens)
    else if toks[0] == ")" then Ok(([], toks[1..]))
    else
      var (x, rest) :- ReadOne(toks);
      var (xs, last) :- ReadItems(rest);
      Ok(([x] + xs, last))
  }

  /** The first expression of a text; what follows it is ignored. */
  function ParseTree(text: string): Result<Sexp, ReadError> {
    var (x, rest) :- ReadOne(Tokens(StripComments(text)));
    Ok(x)
  }

  type ItemsReading = Result<(seq<Sexp>, seq<string>), ReadError>

  function Prepend(items: seq<Sexp>, r: ItemsReading): ItemsReading {
    if r.Ok? then Ok((items + r.value.0, r.value.1)) else r
  }

  /** How the items read so far and the reading of the rest combine, at position `pos`. */
  lemma PrependStep(items: seq<Sexp>, toks: seq<string>, pos: nat)
    requires pos <= |toks|
    ensures Prepend(items, ReadItems(toks[pos..])) ==
              if pos == |toks| then Err(OutOfTokens)
              else if toks[pos] == ")" then Ok((items, toks[pos + 1..]))
              else
                var x := ReadOne(toks[pos..]);
                if x.Ok? then Prepend(items + [x.value.0], ReadItems(x.value.1)) else Err(x.error)
  {
    if pos < |toks| {
      if toks[pos] == ")" {
        assert toks[pos..][1..] == toks[pos + 1..];
        assert items + [] == items;
      } else {
        var x := ReadOne(toks[pos..]);
        if x.Ok? && ReadItems(x.value.1).Ok? {
          var xs := ReadItems(x.value.1).value.0;
          assert items + ([x.value.0] + xs) == items + [x.value.0] + xs;
        }
      }
    }
  }

  lemma ReadsFirst(toks: seq<string>, pos: nat)
    requires pos <= |toks|
    ensures ReadOne(toks[pos..]) ==
              if pos == |toks| then Err(OutOfTokens)
              else if toks[pos] != "(" then Ok((Atom(Lower(toks[pos])), toks[pos + 1..]))
              else
                var r := Prepend([], ReadItems(toks[pos + 1..]));
                if r.Ok? then Ok((List(r.value.0), r.value.1)) else Err(r.error)
  {
    if pos < |toks| {
      assert toks[pos..][1..] == toks[pos + 1..];
      var r := ReadItems(toks[pos + 1..]);
      if r.Ok? {
        assert [] + r.value.0 == r.value.0;
      }
    }
  }

  /** The recursive reader with its shared cursor. */
  class Reader {
    const toks: seq<string>
    var pos: nat

    constructor (toks: seq<string>)
      ensures this.toks == toks && pos == 0
    {
      this.toks := toks;
      pos := 0;
    }

    method Read() returns (r: Result<Sexp, ReadError>)
      requires pos <= |toks|
      modifies this
      ensures var was := ReadOne(toks[old(pos)..]);
              if was.Ok? then r == Ok(was.value.0) && pos <= |toks| && toks[pos..] == was.value.1
              else r == Err(was.error)
      decreases |toks| - pos, 0
    {
      hide ReadOne, ReadItems, Prepend, Lower;
      ReadsFirst(toks, pos);
      if pos == |toks| {
        return Err(OutOfTokens);
      }
      var t := toks[pos];
      pos := pos + 1;
      if t != "(" {
        return Ok(Atom(Lower(t)));
      }
      var items: seq<Sexp> := [];
      while true
        invariant old(pos) < pos <= |toks|
        invariant Prepend([], ReadItems(toks[old(pos) + 1..])) == Prepend(items, ReadItems(toks[pos..]))
        decreases |toks| - pos
      {
        PrependStep(items, toks, pos);
        if pos == |toks| {
          return Err(OutOfTokens);
        }
        if toks[pos] == ")" {
          break;
        }
        ghost var left := toks[pos..];
        var x := Read();
        if x.Err? {
          return x;
        }
        assert |toks[pos..]| < |left|;
        items := items + [x.value];
      }
      pos := pos + 1;
      return Ok(List(items));
    }
  }

  method Parse(text: string) returns (r: Result<Sexp, ReadError>)
    ensures r == ParseTree(text)
  {
    var toks := Tokens(StripComments(text));
    var reader := new Reader(toks);
    assert toks[0..] == toks;
    r := reader.Read();
  }

  // ---- trees to text ----

  function Dump(x: Sexp): string
    decreases x
  {
    match x
    case Atom(text) => text
    case List(items) => "(" + Join(items) + ")"
  }

  function Join(xs: seq<Sexp>): string
    decreases xs
  {
    if xs == [] then ""
    else if |xs| == 1 then Dump(xs[0])
    else Dump(xs[0]) + " " + Join(xs[1..])
  }

  /** A list prints as its parts in order, single spaces between them, in parentheses. */
  lemma {:induction false} JoinAppends(xs: seq<Sexp>, x: Sexp)
    ensures Join(xs + [x]) == if xs == [] then Dump(x) else Join(xs) + " " + Dump(x)
  {
    if xs == [] {
      assert xs + [x] == [x];
    } else if |xs| == 1 {
      assert (xs + [x])[1..] == [x];
    } else {
      assert (xs + [x])[1..] == xs[1..] + [x];
      JoinAppends(xs[1..], x);
    }
  }

  // ---- the round trip ----

  predicate IsWord(s: string) {
    s != "" && forall c | c in s :: IsWordChar(c) && c != ';' && LowerChar(c) == c
  }

  /** Every atom is a nonempty lower-case word without spaces, parentheses or semicolons. */
  predicate Printable(x: Sexp)
    decreases x
  {
    match x
    case Atom(text) => IsWord(text)
    case List(items) => forall i | 0 <= i < |items| :: Printable(items[i])
  }

  function Flat(x: Sexp): seq<string>
    decreases x
  {
    match x
    case Atom(text) => [text]
    case List(items) => ["("] + FlatItems(items) + [")"]
  }

  function FlatItems(xs: seq<Sexp>): seq<string>
    decreases xs
  {
    if xs == [] then [] else Flat(xs[0]) + FlatItems(xs[1..])
  }

  predicate Delimited(rest: string) {
    rest == "" || !IsWordChar(rest[0])
  }

  lemma TokensOfWord(w: string, rest: string)
    requires IsWord(w) && Delimited(rest)
    ensures Tokens(w + rest) == [w] + Tokens(rest)
  {
    var s := w + rest;
    forall i | 0 <= i < |w| ensures IsWordChar(s[i]) {
      assert w[i] in w;
    }
    assert rest != "" ==> s[|w|] == rest[0];
    assert WordLength(s) == |w|;
    assert s[..|w|] == w && s[|w|..] == rest;
  }

  lemma TokensOfMark(mark: string, rest: string)
    requires mark == "(" || mark == ")"
    ensures Tokens(mark + rest) == [mark] + Tokens(rest)
  {
    var s := mark + rest;
    assert s[..1] == mark && s[1..] == rest;
  }

  /** Tokenizing a printed tree gives its tokens back, whatever delimited text follows. */
  lemma {:induction false} TokensOfDump(x: Sexp, rest: string)
    requires Printable(x) && (x.Atom? ==> Delimited(rest))
    ensures Tokens(Dump(x) + rest) == Flat(x) + Tokens(rest)
    decreases x
  {
    match x
    case Atom(text) =>
      TokensOfWord(text, rest);
    case List(items) =>
      var tail := ")" + rest;
      assert Dump(x) + rest == "(" + (Join(items) + tail);
      TokensOfMark("(", Join(items) + tail);
      TokensOfJoin(items, tail);
      TokensOfMark(")", rest);
  }

  lemma {:induction false} TokensOfJoin(xs: seq<Sexp>, tail: string)
    requires (forall i | 0 <= i < |xs| :: Printable(xs[i])) && tail != "" && !IsWordChar(tail[0])
    ensures Tokens(Join(xs) + tail) == FlatItems(xs) + Tokens(tail)
    decreases xs
  {
    if xs == [] {
      assert Join(xs) + tail == tail;
    } else if |xs| == 1 {
      TokensOfDump(xs[0], tail);
      assert FlatItems(xs[1..]) == [];
    } else {
      var more := Join(xs[1..]) + tail;
      assert Join(xs) + tail == Dump(xs[0]) + (" " + more);
      TokensOfDump(xs[0], " " + more);
      assert (" " + more)[1..] == more;
      TokensOfJoin(xs[1..], tail);
    }
  }

  // ---- any text at all ----

  /** The space characters of the ASCII range. */
  const SPACES: string := " \t\n\U{B}\U{C}\r\U{1C}\U{1D}\U{1E}\U{1F}"

  /** The first token or space of a text is the same with delimited text behind it. */
  lemma TokenStep(text: string, rest: string) returns (n: nat, head: seq<string>)
    requires text != "" && Delimited(rest)
    ensures 0 < n <= |text|
    ensures Tokens(text) == head + Tokens(text[n..]) && Tokens(text + rest) == head + Tokens(text[n..] + rest)
  {
    var s := text + rest;
    n := if IsWordChar(text[0]) then WordLength(text) else 1;
    head := if IsSpace(text[0]) then [] else [text[..n]];
    if IsWordChar(text[0]) {
      WordStops(text, rest);
    }
    assert s[..n] == text[..n] && s[n..] == text[n..] + rest;
  }

  lemma {:induction false} DelimitedSplits(text: string, rest: string)
    requires Delimited(rest)
    ensures Tokens(text + rest) == Tokens(text) + Tokens(rest)
    decreases |text|
  {
    if text == "" {
      assert text + rest == rest;
    } else {
      hide *;
      var n, head := TokenStep(text, rest);
      DelimitedSplits(text[n..], rest);
    }
  }

  /** A space separates tokens and is none; a parenthesis separates tokens and is one. */
  lemma SeparatorSplits(text: string, c: char, rest: string)
    requires c in SPACES || c == '(' || c == ')'
    ensures Tokens(text + [c] + rest) == Tokens(text) + (if c in SPACES then [] else [[c]]) + Tokens(rest)
  {
    SpaceIff(c);
    var s := [c] + rest;
    assert s[..1] == [c] && s[1..] == rest;
    assert text + [c] + rest == text + s;
    DelimitedSplits(text, s);
  }

  lemma SpaceIff(c: char)
    ensures IsSpace(c) <==> c in SPACES
  {
    assert SPACES[0] == ' ' && SPACES[1] == '\t' && SPACES[2] == '\n' && SPACES[3] == '\U{B}' && SPACES[4] == '\U{C}'
           && SPACES[5] == '\r' && SPACES[6] == '\U{1C}' && SPACES[7] == '\U{1D}' && SPACES[8] == '\U{1E}'
           && SPACES[9] == '\U{1F}' && |SPACES| == 10;
  }

  lemma {:induction false} WordStops(text: string, rest: string)
    requires Delimited(rest)
    ensures WordLength(text + rest) == WordLength(text)
  {
    if text == "" {
      assert text + rest == rest;
    } else {
      assert (text + rest)[1..] == text[1..] + rest;
      WordStops(text[1..], rest);
    }
  }

  /** A nonempty run of other characters is one token. */
  lemma RunIsOneToken(word: string)
    requires word != "" && forall c | c in word :: c !in SPACES && c != '(' && c != ')'
    ensures Tokens(word) == [word]
  {
    forall i | 0 <= i < |word| ensures IsWordChar(word[i]) {
      SpaceIff(word[i]);
      assert word[i] in word;
    }
    assert WordLength(word) == |word|;
    assert word[..|word|] == word && word[|word|..] == "";
  }

  function LowerAll(toks: seq<string>): seq<string> {
    seq(|toks|, i requires 0 <= i < |toks| => Lower(toks[i]))
  }

  function LowerRest(r: Reading): Reading {
    match r
    case Err(e) => Err(e)
    case Ok((x, rest)) => Ok((x, LowerAll(rest)))
  }

  function LowerItemsRest(r: ItemsReading): ItemsReading {
    match r
    case Err(e) => Err(e)
    case Ok((xs, rest)) => Ok((xs, LowerAll(rest)))
  }

  lemma LowerKeepsParens(t: string)
    ensures Lower(Lower(t)) == Lower(t)
    ensures (Lower(t) == "(" <==> t == "(") && (Lower(t) == ")" <==> t == ")")
  {
    assert t == "(" ==> Lower(t) == "(";
    assert t == ")" ==> Lower(t) == ")";
    if |t| == 1 {
      assert Lower(t)[0] == LowerChar(t[0]);
      assert t == [t[0]] && Lower(t) == [LowerChar(t[0])];
    }
  }

  /** Reading pays no regard to case. */
  lemma {:induction false} CaseIsIgnored(toks: seq<string>)
    ensures ReadOne(LowerAll(toks)) == LowerRest(ReadOne(toks))
    decreases |toks|, 0
  {
    var low := LowerAll(toks);
    if toks != [] {
      LowerKeepsParens(toks[0]);
      assert low[0] == Lower(toks[0]) && low[1..] == LowerAll(toks[1..]);
      if toks[0] == "(" {
        CaseIsIgnoredInItems(toks[1..]);
      }
    }
  }

  lemma {:induction false} CaseIsIgnoredInItems(toks: seq<string>)
    ensures ReadItems(LowerAll(toks)) == LowerItemsRest(ReadItems(toks))
    decreases |toks|, 1
  {
    var low := LowerAll(toks);
    if toks != [] {
      LowerKeepsParens(toks[0]);
      assert low[0] == Lower(toks[0]) && low[1..] == LowerAll(toks[1..]);
      if toks[0] != ")" {
        CaseIsIgnored(toks);
        if ReadOne(toks).Ok? {
          CaseIsIgnoredInItems(ReadOne(toks).value.1);
        }
      }
    }
  }

  /** What reading returns is spelled, token by token, as what it read, lowered. */
  lemma {:induction false} ReadingIsFlat(toks: seq<string>)
    requires ReadOne(toks).Ok?
    ensures var (x, rest) := ReadOne(toks).value; LowerAll(toks) == Flat(x) + LowerAll(rest)
    decreases |toks|, 0
  {
    var first, after := toks[0], toks[1..];
    LowerFirst(toks);
    LowerKeepsParens(first);
    hide LowerAll, Lower;
    if first == "(" {
      ItemReadingIsFlat(after);
    }
  }

  lemma LowerFirst(toks: seq<string>)
    requires toks != []
    ensures LowerAll(toks) == [Lower(toks[0])] + LowerAll(toks[1..])
  {
    hide Lower;
  }

  lemma {:induction false} ItemReadingIsFlat(toks: seq<string>)
    requires ReadItems(toks).Ok?
    ensures var (xs, rest) := ReadItems(toks).value; LowerAll(toks) == FlatItems(xs) + [")"] + LowerAll(rest)
    decreases |toks|, 1
  {
    if toks[0] == ")" {
      LowerFirst(toks);
      LowerKeepsParens(")");
    } else {
      var (x, rest) := ReadOne(toks).value;
      var (xs, last) := ReadItems(rest).value;
      assert ReadItems(toks).value == ([x] + xs, last);
      FlatOfMore(x, xs);
      hide *;
      ReadingIsFlat(toks);
      ItemReadingIsFlat(rest);
      Regroup(Flat(x), FlatItems(xs), [")"], LowerAll(last));
    }
  }

  lemma FlatOfMore(x: Sexp, xs: seq<Sexp>)
    ensures FlatItems([x] + xs) == Flat(x) + FlatItems(xs)
  {
    assert ([x] + xs)[1..] == xs;
  }

  lemma Regroup(a: seq<string>, b: seq<string>, c: seq<string>, d: seq<string>)
    ensures a + (b + c + d) == (a + b) + c + d
  {
  }

  lemma LowerOfWord(w: string)
    requires IsWord(w)
    ensures Lower(w) == w && w != "(" && w != ")"
  {
    forall i | 0 <= i < |w| ensures LowerChar(w[i]) == w[i] {
      assert w[i] in w;
    }
    assert w[0] in w && IsWordChar(w[0]);
  }

  lemma ReadWord(w: string, rest: seq<string>)
    requires IsWord(w)
    ensures ReadOne([w] + rest) == Ok((Atom(w), rest)) && w != ")"
  {
    hide Lower, IsWord;
    LowerOfWord(w);
    assert ([w] + rest)[1..] == rest;
  }

  lemma ReadOpen(tail: seq<string>)
    requires ReadItems(tail).Ok?
    ensures ReadOne(["("] + tail) == Ok((List(ReadItems(tail).value.0), ReadItems(tail).value.1))
  {
    assert (["("] + tail)[1..] == tail;
  }

  lemma ReadMore(x: Sexp, flat: seq<string>, more: seq<string>)
    requires flat != [] && flat[0] != ")" && ReadOne(flat + more) == Ok((x, more)) && ReadItems(more).Ok?
    ensures ReadItems(flat + more) == Ok(([x] + ReadItems(more).value.0, ReadItems(more).value.1))
  {
  }

  /** Reading the tokens of a printable tree gives the tree back and leaves the rest. */
  lemma {:induction false} ReadsBack(x: Sexp, rest: seq<string>)
    requires Printable(x)
    ensures ReadOne(Flat(x) + rest) == Ok((x, rest))
    ensures Flat(x) != [] && Flat(x)[0] != ")"
    decreases x
  {
    hide ReadItems;
    match x
    case Atom(text) => ReadWord(text, rest);
    case List(items) =>
      var tail := FlatItems(items) + ([")"] + rest);
      ReadsItemsBack(items, rest);
      assert Flat(x) + rest == ["("] + tail;
      ReadOpen(tail);
  }

  lemma {:induction false} ReadsItemsBack(xs: seq<Sexp>, rest: seq<string>)
    requires forall i | 0 <= i < |xs| :: Printable(xs[i])
    ensures ReadItems(FlatItems(xs) + ([")"] + rest)) == Ok((xs, rest))
    decreases xs
  {
    hide ReadOne;
    if xs == [] {
      assert FlatItems(xs) + ([")"] + rest) == [")"] + rest;
    } else {
      var more := FlatItems(xs[1..]) + ([")"] + rest);
      assert FlatItems(xs) + ([")"] + rest) == Flat(xs[0]) + more;
      ReadsBack(xs[0], more);
      ReadsItemsBack(xs[1..], rest);
      ReadMore(xs[0], Flat(xs[0]), more);
      assert [xs[0]] + xs[1..] == xs;
    }
  }

  lemma {:induction false} DumpHasNoComment(x: Sexp)
    requires Printable(x)
    ensures ';' !in Dump(x)
    decreases x
  {
    if x.List? {
      JoinHasNoComment(x.items);
    }
  }

  lemma {:induction false} JoinHasNoComment(xs: seq<Sexp>)
    requires forall i | 0 <= i < |xs| :: Printable(xs[i])
    ensures ';' !in Join(xs)
    decreases xs
  {
    if xs != [] {
      DumpHasNoComment(xs[0]);
      JoinHasNoComment(xs[1..]);
    }
  }

  lemma {:induction false} NothingToStrip(s: string)
    requires ';' !in s
    ensures StripComments(s) == s
  {
    if s != [] {
      NothingToStrip(s[1..]);
    }
  }

  lemma {:induction false} DropsToLineEnd(c: string, rest: string)
    requires '\n' !in c && (rest == "" || rest[0] == '\n')
    ensures DropLine(c + rest) == rest
  {
    if c != [] {
      assert (c + rest)[1..] == c[1..] + rest;
      DropsToLineEnd(c[1..], rest);
    } else {
      assert c + rest == rest;
    }
  }

  /** A comment runs from its semicolon up to the end of the line, which stays; without a line end it runs to the end. */
  lemma {:induction false} CommentRunsToLineEnd(text: string, comment: string, rest: string)
    requires ';' !in text && '\n' !in comment && (rest == "" || rest[0] == '\n')
    ensures StripComments(text + ";" + comment + rest) == text + StripComments(rest)
  {
    var s := text + ";" + comment + rest;
    if text == [] {
      assert s == (";" + comment) + rest;
      DropsToLineEnd(";" + comment, rest);
      assert DropLine(s) == rest && |rest| < |s|;
    } else {
      assert s[1..] == text[1..] + ";" + comment + rest;
      CommentRunsToLineEnd(text[1..], comment, rest);
      assert text == [text[0]] + text[1..];
    }
  }

  const UPPER: string := "ABCDEFGHIJKLMNOPQRSTUVWXYZ"
  const LOWER: string := "abcdefghijklmnopqrstuvwxyz"

  /** Lowering turns each capital into the letter at its place and keeps every other character. */
  lemma LowersLetters(c: char)
    ensures forall i | 0 <= i < 26 :: c == UPPER[i] ==> LowerChar(c) == LOWER[i]
    ensures c !in UPPER ==> LowerChar(c) == c
  {
    assert forall i | 0 <= i < 26 :: UPPER[i] as int == 65 + i && LOWER[i] as int == 97 + i;
    if 'A' <= c <= 'Z' {
      assert UPPER[c as int - 65] == c;
    }
  }

  /** Parsing a printed tree gives the tree back. */
  lemma ParseUndoesDump(x: Sexp)
    requires Printable(x)
    ensures ParseTree(Dump(x)) == Ok(x)
  {
    DumpHasNoComment(x);
    NothingToStrip(Dump(x));
    TokensOfDump(x, "");
    assert Dump(x) + "" == Dump(x);
    ReadsBack(x, Tokens(""));
  }

  /** Two printable trees never print alike, so a printed tree can serve as a key. */
  lemma DumpIsInjective(x: Sexp, y: Sexp)
    requires Printable(x) && Printable(y) && Dump(x) == Dump(y)
    ensures x == y
  {
    ParseUndoesDump(x);
    ParseUndoesDump(y);
  }

  // ---- what can be read at all ----

  predicate IsToken(t: string) {
    t == "(" || t == ")" || (t != "" && forall c | c in t :: IsWordChar(c) && c != ';')
  }

  lemma {:induction false} TokensAreTokens(s: string)
    requires ';' !in s
    ensures forall t | t in Tokens(s) :: IsToken(t)
    decreases |s|
  {
    if s != [] {
      if IsSpace(s[0]) {
        TokensAreTokens(s[1..]);
      } else if !IsWordChar(s[0]) {
        TokensAreTokens(s[1..]);
        assert s[..1] == [s[0]];
      } else {
        TokensAreTokens(s[WordLength(s)..]);
        assert IsToken(s[..WordLength(s)]);
      }
    }
  }

  lemma LoweredTokenIsWord(t: string)
    requires IsToken(t) && t != "(" && t != ")"
    ensures IsWord(Lower(t))
  {
    forall c | c in Lower(t) ensures IsWordChar(c) && c != ';' && LowerChar(c) == c {
      var i :| 0 <= i < |t| && Lower(t)[i] == c;
      assert t[i] in t;
    }
  }

  lemma {:induction false} ReadingsArePrintable(toks: seq<string>)
    requires forall t | t in toks :: IsToken(t)
    ensures ReadOne(toks).Ok? ==>
              || Printable(ReadOne(toks).value.0)
              || (toks != [] && toks[0] == ")" && ReadOne(toks).value.0 == Atom(")"))
    decreases |toks|, 0
  {
    if toks != [] {
      if toks[0] == "(" {
        ItemReadingsArePrintable(toks[1..]);
      } else if toks[0] == ")" {
        assert Lower(")") == ")";
      } else {
        LoweredTokenIsWord(toks[0]);
      }
    }
  }

  lemma {:induction false} ItemReadingsArePrintable(toks: seq<string>)
    requires forall t | t in toks :: IsToken(t)
    ensures ReadItems(toks).Ok? ==>
              forall i | 0 <= i < |ReadItems(toks).value.0| :: Printable(ReadItems(toks).value.0[i])
    decreases |toks|, 1
  {
    if toks != [] && toks[0] != ")" {
      ReadingsArePrintable(toks);
      if ReadOne(toks).Ok? {
        ItemReadingsArePrintable(ReadOne(toks).value.1);
      }
    }
  }

  /** What parsing returns is printable, but for a text that starts with a closing parenthesis. */
  lemma ParsedIsPrintable(text: string)
    ensures ParseTree(text).Ok? ==> Printable(ParseTree(text).value) || ParseTree(text).value == Atom(")")
  {
    TokensAreTokens(StripComments(text));
    ReadingsArePrintable(Tokens(StripComments(text)));
  }

  lemma StrayParenReadsBack()
    ensures ParseTree(")") == Ok(Atom(")"))
  {
    var s := ")";
    NothingToStrip(s);
    assert s[1..] == "" && s[..1] == s;
    assert Tokens(s) == [s];
    assert Lower(s) == s;
  }

  /** Printing and parsing gives back exactly the printable trees, and the stray closing parenthesis. */
  lemma RoundTripIff(x: Sexp)
    ensures ParseTree(Dump(x)) == Ok(x) <==> Printable(x) || x == Atom(")")
  {
    ParsedIsPrintable(Dump(x));
    if Printable(x) {
      ParseUndoesDump(x);
    }
    StrayParenReadsBack();
  }

  /** Printing what was parsed and parsing again changes nothing: comments, spacing and case are gone for good. */
  lemma PrintingIsNormal(text: string)
    requires ParseTree(text).Ok?
    ensures ParseTree(Dump(ParseTree(text).value)) == ParseTree(text)
  {
    ParsedIsPrintable(text);
    RoundTripIff(ParseTree(text).value);
  }
}
