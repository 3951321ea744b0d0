/**
 * The vendor-independent base of every adapter (llm_call.py): the result shapes, the
 * conversation accumulator, the reply normalisers, the JSON ranked-list parser and the
 * generic retry loop.
 */
module LlmCall {
  import opened Wrappers

  // ------------------------------------------------------------------
  // Result shapes
  // ------------------------------------------------------------------

  /**
   * The probability attached to a reply. Floating point is not modelled: Together reports
   * exp of the summed token log-probabilities, kept here as that sum; Gemini hands back the
   * SDK's log-probability record, kept here uninterpreted.
   */
  datatype Probability = ExpOfLogprobSum(logprobSum: real) | GeminiLogprobs(raw: seq<real>)

  /** One answer to one generic question. */
  datatype SimpleResponse = SimpleResponse(
    answer: string, probability: Option<Probability>, inputTokens: int, outputTokens: int)

  /** A list of answers, best ranked first. */
  datatype Response = Response(answers: seq<string>, inputTokens: int, outputTokens: int)

  /** A normalised one-word choice. */
  datatype Choice = Choice(
    answer: string, probability: Option<Probability>, inputTokens: int, outputTokens: int)

  /** One turn of a conversation. */
  datatype Answer = Answer(
    ordinal: int, question: string, answers: seq<string>, inputTokens: int, outputTokens: int)

  /** The exceptions the modelled code raises or catches. */
  datatype Error =
    | JSONDecodeError
    | AttributeError
    | TypeError(message: string)
    | ValueError(message: string)

  /** The sentinel returned when a provider call fails. */
  const EmptyAnswer := SimpleResponse("", None, 0, 0)

  /** The sentinel returned when no list could be obtained. */
  const EmptyList := Response([], 0, 0)

  // ------------------------------------------------------------------
  // Conversation accumulator
  // ------------------------------------------------------------------

  function TokensOf(a: Answer, input: bool): int
  {
    if input then a.inputTokens else a.outputTokens
  }

  /** The smallest key of a non-empty set of ordinals. */
  ghost function MinKey(s: set<int>): (k: int)
    requires s != {}
    ensures k in s && forall x :: x in s ==> k <= x
    decreases |s|
  {
    assert exists x :: x in s by {
      if forall x :: x !in s { assert false; }
    }
    var x :| x in s;
    if s == {x} then x
    else
      var rest := s - {x};
      assert |rest| == |s| - 1;
      var y := MinKey(rest);
      assert forall z :: z in s ==> z == x || z in rest;
      if x <= y then x else y
  }

  /** The input (or output) tokens of all answers stored in `m`, added up. */
  ghost function SumTokens(m: map<int, Answer>, input: bool): int
    decreases |m|
  {
    if m.Keys == {} then 0
    else
      var k := MinKey(m.Keys);
      assert |(m - {k}).Keys| == |m.Keys| - 1 by { assert (m - {k}).Keys == m.Keys - {k}; }
      TokensOf(m[k], input) + SumTokens(m - {k}, input)
  }

  /** The sum does not depend on which answer is taken out first. */
  lemma {:induction false} SumTokensRemove(m: map<int, Answer>, k: int, input: bool)
    requires k in m
    ensures SumTokens(m, input) == TokensOf(m[k], input) + SumTokens(m - {k}, input)
    decreases |m|
  {
    var j := MinKey(m.Keys);
    if j != k {
      assert |(m - {j}).Keys| == |m.Keys| - 1 by { assert (m - {j}).Keys == m.Keys - {j}; }
      SumTokensRemove(m - {j}, k, input);
      assert |(m - {k}).Keys| == |m.Keys| - 1 by { assert (m - {k}).Keys == m.Keys - {k}; }
      SumTokensRemove(m - {k}, j, input);
      assert (m - {j}) - {k} == (m - {k}) - {j};
    }
  }

  /** Storing an answer under a fresh ordinal adds exactly its tokens to the sum. */
  lemma SumTokensAddFresh(m: map<int, Answer>, a: Answer, input: bool)
    requires a.ordinal !in m
    ensures SumTokens(m[a.ordinal := a], input) == SumTokens(m, input) + TokensOf(a, input)
  {
    SumTokensRemove(m[a.ordinal := a], a.ordinal, input);
    var rest := m[a.ordinal := a] - {a.ordinal};
    assert rest.Keys == m.Keys;
    assert forall k :: k in rest ==> rest[k] == m[k];
    assert rest == m;
  }

  /**
   * Storing an answer under an ordinal already present replaces the old answer's tokens;
   * the running counters, which only ever add, then exceed the sum by the old answer's tokens.
   */
  lemma SumTokensReplace(m: map<int, Answer>, a: Answer, input: bool)
    requires a.ordinal in m
    ensures SumTokens(m[a.ordinal := a], input)
         == SumTokens(m, input) - TokensOf(m[a.ordinal], input) + TokensOf(a, input)
  {
    SumTokensRemove(m[a.ordinal := a], a.ordinal, input);
    SumTokensRemove(m, a.ordinal, input);
    assert m[a.ordinal := a] - {a.ordinal} == m - {a.ordinal};
  }

  /** The turns of one conversation, keyed by ordinal, with running token counters. */
  class Conversation {
    var turns: map<int, Answer>
    var inputTokens: int
    var outputTokens: int

    /** The counters equal the sums over the stored turns. */
    ghost predicate Valid()
      reads this
    {
      inputTokens == SumTokens(turns, true) && outputTokens == SumTokens(turns, false)
    }

    constructor ()
      ensures turns == map[] && inputTokens == 0 && outputTokens == 0
      ensures Valid()
    {
      turns := map[];
      inputTokens := 0;
      outputTokens := 0;
    }

    /** Stores `a` under its ordinal and adds its tokens to the counters. */
    method Add(a: Answer)
      modifies this
      ensures turns == old(turns)[a.ordinal := a]
      ensures forall k :: k in old(turns) && k != a.ordinal ==> k in turns && turns[k] == old(turns)[k]
      ensures inputTokens == old(inputTokens) + a.inputTokens
      ensures outputTokens == old(outputTokens) + a.outputTokens
      ensures old(Valid()) && a.ordinal !in old(turns) ==> Valid()
    {
      ghost var before := turns;
      turns := turns[a.ordinal := a];
      inputTokens := inputTokens + a.inputTokens;
      outputTokens := outputTokens + a.outputTokens;
      if a.ordinal !in before {
        SumTokensAddFresh(before, a, true);
        SumTokensAddFresh(before, a, false);
      }
    }
  }

  // ------------------------------------------------------------------
  // Stripping characters (Python's str.strip(chars))
  // ------------------------------------------------------------------

  /** `r` is a contiguous piece of `s`. */
  ghost predicate IsSliceOf(r: string, s: string)
  {
    exists i, j :: 0 <= i <= j <= |s| && r == s[i..j]
  }

  lemma SliceOfSlice(a: string, b: string, c: string)
    requires IsSliceOf(a, b) && IsSliceOf(b, c)
    ensures IsSliceOf(a, c)
  {
    var i, j :| 0 <= i <= j <= |b| && a == b[i..j];
    var k, l :| 0 <= k <= l <= |c| && b == c[k..l];
    assert |a| == j - i;
    forall t | 0 <= t < j - i ensures a[t] == c[k + i + t] {
      assert a[t] == b[i + t];
      assert b[i + t] == c[k + (i + t)];
    }
    assert a == c[k + i..k + j];
  }

  /** The number of leading characters of `s` that belong to `cs`. */
  function LeadingIn(s: string, cs: string): (n: nat)
    ensures n <= |s|
    ensures forall i :: 0 <= i < n ==> s[i] in cs
    ensures n < |s| ==> s[n] !in cs
  {
    if |s| > 0 && s[0] in cs then 1 + LeadingIn(s[1..], cs) else 0
  }

  /** The number of trailing characters of `s` that belong to `cs`. */
  function TrailingIn(s: string, cs: string): (n: nat)
    ensures n <= |s|
    ensures forall i :: |s| - n <= i < |s| ==> s[i] in cs
    ensures n < |s| ==> s[|s| - 1 - n] !in cs
  {
    if |s| > 0 && s[|s| - 1] in cs then 1 + TrailingIn(s[..|s| - 1], cs) else 0
  }

  /** Python's `s.strip(cs)`: drop the leading, then the trailing, characters found in `cs`. */
  function Strip(s: string, cs: string): (r: string)
    ensures IsSliceOf(r, s)
    ensures r == [] || (r[0] !in cs && r[|r| - 1] !in cs)
  {
    var i := LeadingIn(s, cs);
    var t := s[i..];
    var j := TrailingIn(t, cs);
    assert t[..|t| - j] == s[i..i + (|t| - j)];
    t[..|t| - j]
  }

  /** What `Strip` removes are exactly characters of `cs`, and what it keeps is one piece of `s`. */
  lemma StripRemovesOnlyMembers(s: string, cs: string)
    ensures exists i, j :: 0 <= i <= j <= |s| && Strip(s, cs) == s[i..j]
                          && (forall k :: 0 <= k < i ==> s[k] in cs)
                          && (forall k :: j <= k < |s| ==> s[k] in cs)
  {
    var i := LeadingIn(s, cs);
    var t := s[i..];
    var j := TrailingIn(t, cs);
    assert Strip(s, cs) == s[i..i + (|t| - j)];
    forall k | i + (|t| - j) <= k < |s| ensures s[k] in cs {
      assert s[k] == t[k - i];
    }
  }

  /** Stripping twice with the same characters changes nothing more. */
  lemma StripIdempotent(s: string, cs: string)
    ensures Strip(Strip(s, cs), cs) == Strip(s, cs)
  {
    var r := Strip(s, cs);
    assert LeadingIn(r, cs) == 0;
    assert r[0..] == r;
    assert TrailingIn(r, cs) == 0;
  }

  // ------------------------------------------------------------------
  // Reply normalisers
  // ------------------------------------------------------------------

  /** Characters `clean_reply` strips first: space, dot, double quote, digits, blanks, bullets. */
  const ReplyNoise: string := " .\"1234567890\t\r\n*-:;\U{2022}"

  /** `clean_reply`: strip the noise characters, then single quotes. */
  function CleanReply(text: string): (r: string)
    ensures IsSliceOf(r, text)
    ensures r == [] || (r[0] != '\'' && r[|r| - 1] != '\'')
  {
    var once := Strip(text, ReplyNoise);
    var twice := Strip(once, "'");
    SliceOfSlice(twice, once, text);
    twice
  }

  /** The position of the first `c` in `s`. */
  function IndexOf(s: string, c: char): (i: nat)
    requires c in s
    ensures i < |s| && s[i] == c && c !in s[..i]
  {
    if s[0] == c then 0
    else
      var j := IndexOf(s[1..], c);
      assert s[..j + 1] == [s[0]] + s[1..][..j];
      j + 1
  }

  /** Python's `s.split(sep)` for a one-character separator. */
  function Split(s: string, sep: char): (parts: seq<string>)
    ensures |parts| >= 1
    ensures forall p :: p in parts ==> sep !in p
    ensures |parts| == 1 <==> sep !in s
    decreases |s|
  {
    if sep !in s then [s]
    else
      var i := IndexOf(s, sep);
      [s[..i]] + Split(s[i + 1..], sep)
  }

  /** Python's `sep.join(parts)`, the inverse of `Split`. */
  function Join(parts: seq<string>, sep: char): string
  {
    if parts == [] then ""
    else if |parts| == 1 then parts[0]
    else parts[0] + [sep] + Join(parts[1..], sep)
  }

  /** Joining a part onto at least one more puts the separator between them. */
  lemma JoinCons(head: string, rest: seq<string>, sep: char)
    requires |rest| >= 1
    ensures Join([head] + rest, sep) == head + [sep] + Join(rest, sep)
  {
    assert ([head] + rest)[1..] == rest;
  }

  /** A text is what comes before position `i`, the character there, and what comes after. */
  lemma AroundIndex(s: string, i: nat)
    requires i < |s|
    ensures s == s[..i] + [s[i]] + s[i + 1..]
  {
    assert s[i..] == [s[i]] + s[i + 1..];
    assert s == s[..i] + s[i..];
  }

  /** Splitting a text that holds the separator: the text before it, then the split of the rest. */
  lemma SplitUnfold(s: string, sep: char)
    requires sep in s
    ensures var i := IndexOf(s, sep);
            Split(s, sep) == [s[..i]] + Split(s[i + 1..], sep)
  {
  }

  lemma {:induction false} JoinSplit(s: string, sep: char)
    ensures Join(Split(s, sep), sep) == s
    decreases |s|
  {
    if sep in s {
      var i := IndexOf(s, sep);
      SplitUnfold(s, sep);
      AroundIndex(s, i);
      var head, tail := s[..i], s[i + 1..];
      JoinSplit(tail, sep);
      JoinCons(head, Split(tail, sep), sep);
      calc {
        Join(Split(s, sep), sep);
        Join([head] + Split(tail, sep), sep);
        head + [sep] + Join(Split(tail, sep), sep);
        head + [sep] + tail;
        s;
      }
    }
  }

  lemma {:induction false} IndexOfFirstSeparator(x: string, sep: char, y: string)
    requires sep !in x
    ensures sep in x + [sep] + y && IndexOf(x + [sep] + y, sep) == |x|
  {
    var s := x + [sep] + y;
    assert s[|x|] == sep;
    if x != [] {
      assert s[1..] == x[1..] + [sep] + y;
      IndexOfFirstSeparator(x[1..], sep, y);
    }
  }

  lemma {:induction false} SplitJoin(parts: seq<string>, sep: char)
    requires |parts| >= 1
    requires forall p :: p in parts ==> sep !in p
    ensures Split(Join(parts, sep), sep) == parts
  {
    if |parts| > 1 {
      var s := Join(parts, sep);
      var rest := Join(parts[1..], sep);
      assert s == parts[0] + [sep] + rest;
      assert s[|parts[0]|] == sep;
      assert sep in s;
      assert s[..|parts[0]|] == parts[0];
      assert parts[0] in parts;
      IndexOfFirstSeparator(parts[0], sep, rest);
      var i := IndexOf(s, sep);
      assert s[i + 1..] == rest;
      SplitJoin(parts[1..], sep);
    }
  }

  /** The raw pieces of `parse_list`: split on commas, or on newlines when that gives one piece. */
  function Pieces(text: string): (parts: seq<string>)
    ensures parts == if ',' in text then Split(text, ',') else Split(text, '\n')
  {
    var byComma := Split(text, ',');
    if |byComma| == 1 then Split(text, '\n') else byComma
  }

  /** The item a raw piece contributes: its cleaned text when it is non-empty, nothing otherwise. */
  function CleanPiece(p: string): (items: seq<string>)
    ensures |items| <= 1
    ensures |p| > 0 ==> items == [CleanReply(p)]
    ensures |p| == 0 ==> items == []
  {
    if |p| > 0 then [CleanReply(p)] else []
  }

  /** One cleaned reply per non-empty raw piece, in order. */
  function CleanNonEmpty(parts: seq<string>): (items: seq<string>)
    ensures |items| <= |parts|
  {
    if parts == [] then [] else CleanPiece(parts[0]) + CleanNonEmpty(parts[1..])
  }

  /** The non-empty raw pieces, in order: the filter `parse_list` applies before cleaning. */
  function NonEmpty(parts: seq<string>): (kept: seq<string>)
    ensures |kept| <= |parts|
    ensures forall p :: p in kept ==> p in parts && |p| > 0
    ensures forall p :: p in parts && |p| > 0 ==> p in kept
  {
    if parts == [] then []
    else if parts[0] == [] then NonEmpty(parts[1..])
    else [parts[0]] + NonEmpty(parts[1..])
  }

  /** `items` holds, position by position, `f` of the entries of `kept`. */
  ghost predicate MapsTo(items: seq<string>, kept: seq<string>, f: string -> string)
  {
    |items| == |kept| && forall i :: 0 <= i < |kept| ==> items[i] == f(kept[i])
  }

  lemma MapsToPrepend(p: string, items: seq<string>, kept: seq<string>, f: string -> string)
    requires MapsTo(items, kept, f)
    ensures MapsTo([f(p)] + items, [p] + kept, f)
  {
    forall i | 0 <= i < |kept| + 1 ensures ([f(p)] + items)[i] == f(([p] + kept)[i]) {
      if i > 0 {
        assert ([p] + kept)[i] == kept[i - 1];
        assert ([f(p)] + items)[i] == items[i - 1];
      }
    }
  }

  /** Cleaning the raw pieces gives exactly one cleaned reply per non-empty piece, in order. */
  lemma {:induction false} CleanNonEmptyItems(parts: seq<string>)
    ensures |CleanNonEmpty(parts)| == |NonEmpty(parts)|
    ensures MapsTo(CleanNonEmpty(parts), NonEmpty(parts), CleanReply)
  {
    if parts != [] {
      var rest := parts[1..];
      CleanNonEmptyItems(rest);
      if parts[0] == [] {
        assert NonEmpty(parts) == NonEmpty(rest);
        assert CleanNonEmpty(parts) == CleanNonEmpty(rest);
      } else {
        assert NonEmpty(parts) == [parts[0]] + NonEmpty(rest);
        assert CleanNonEmpty(parts) == [CleanReply(parts[0])] + CleanNonEmpty(rest);
        MapsToPrepend(parts[0], CleanNonEmpty(rest), NonEmpty(rest), CleanReply);
      }
    }
  }

  /**
   * `parse_list`: one cleaned reply per non-empty raw piece, in order. The emptiness test is
   * made before cleaning, so an item can be "".
   */
  function ParseList(text: string): (items: seq<string>)
    ensures |items| <= |Pieces(text)|
    ensures |items| == |NonEmpty(Pieces(text))|
  {
    CleanNonEmptyItems(Pieces(text));
    CleanNonEmpty(Pieces(text))
  }

  /** Item `i` of `parse_list` is the cleaned text of the `i`-th non-empty raw piece. */
  lemma ParseListItems(text: string)
    ensures forall i :: 0 <= i < |ParseList(text)| ==> ParseList(text)[i] == CleanReply(NonEmpty(Pieces(text))[i])
  {
    CleanNonEmptyItems(Pieces(text));
  }

  /** Cleaning pieces one after another is cleaning their concatenation: order is kept. */
  lemma {:induction false} CleanNonEmptyAppend(a: seq<string>, b: seq<string>)
    ensures CleanNonEmpty(a + b) == CleanNonEmpty(a) + CleanNonEmpty(b)
  {
    if a != [] {
      assert (a + b)[0] == a[0];
      assert (a + b)[1..] == a[1..] + b;
      CleanNonEmptyAppend(a[1..], b);
      assert CleanNonEmpty(a + b) == CleanPiece(a[0]) + CleanNonEmpty(a[1..] + b);
    } else {
      assert a + b == b;
    }
  }

  /** Every item of `CleanNonEmpty(parts)` is the cleaned text of some non-empty part. */
  lemma {:induction false} CleanNonEmptyFrom(parts: seq<string>, x: string)
    requires x in CleanNonEmpty(parts)
    ensures exists p :: p in parts && |p| > 0 && x == CleanReply(p)
  {
    assert CleanNonEmpty(parts) == CleanPiece(parts[0]) + CleanNonEmpty(parts[1..]);
    if x in CleanPiece(parts[0]) {
      assert parts[0] in parts;
    } else {
      CleanNonEmptyFrom(parts[1..], x);
      var p :| p in parts[1..] && |p| > 0 && x == CleanReply(p);
      assert p in parts;
    }
  }

  /** A character absent from a joined text is absent from every part. */
  lemma {:induction false} JoinHasOnly(parts: seq<string>, sep: char, c: char)
    requires c !in Join(parts, sep)
    ensures forall p :: p in parts ==> c !in p
  {
    if |parts| > 1 {
      var rest := Join(parts[1..], sep);
      assert Join(parts, sep) == parts[0] + [sep] + rest;
      JoinHasOnly(parts[1..], sep, c);
      forall p | p in parts ensures c !in p {
        if p != parts[0] {
          assert p in parts[1..];
        }
      }
    }
  }

  /** Every item of `parse_list` is a piece of some non-empty raw piece. */
  lemma ParseListItemFrom(text: string, x: string)
    requires x in ParseList(text)
    ensures exists p :: p in Pieces(text) && |p| > 0 && IsSliceOf(x, p)
  {
    CleanNonEmptyFrom(Pieces(text), x);
    var p :| p in Pieces(text) && |p| > 0 && x == CleanReply(p);
  }

  /** No raw piece contains a comma, whichever separator was used. */
  lemma PiecesHaveNoCommas(text: string, p: string)
    requires p in Pieces(text)
    ensures ',' !in p
  {
    if ',' in text {
      assert forall q :: q in Split(text, ',') ==> ',' !in q;
    } else {
      JoinSplit(text, '\n');
      JoinHasOnly(Pieces(text), '\n', ',');
    }
  }

  /** A character absent from a text is absent from every piece of it. */
  lemma SliceKeepsAbsent(x: string, p: string, c: char)
    requires IsSliceOf(x, p) && c !in p
    ensures c !in x
  {
    var i, j :| 0 <= i <= j <= |p| && x == p[i..j];
  }

  /** No item of `parse_list` contains a comma. */
  lemma ParseListHasNoCommas(text: string, x: string)
    requires x in ParseList(text)
    ensures ',' !in x
  {
    ParseListItemFrom(text, x);
    var p :| p in Pieces(text) && |p| > 0 && IsSliceOf(x, p);
    PiecesHaveNoCommas(text, p);
    SliceKeepsAbsent(x, p, ',');
  }

  lemma SplitOneCommaB()
    ensures Split("1,b", ',') == ["1", "b"]
  {
    assert "1,b"[1..] == ",b";
    assert IndexOf(",b", ',') == 0;
    assert IndexOf("1,b", ',') == 1;
    assert "1,b"[..1] == "1";
    assert "1,b"[2..] == "b";
    assert ',' !in "b";
  }

  lemma CleanReplyOfDigit()
    ensures CleanReply("1") == "" && CleanPiece("1") == [""]
  {
    assert LeadingIn("1", ReplyNoise) == 1;
    assert Strip("1", ReplyNoise) == "";
  }

  lemma CleanReplyOfLetter()
    ensures CleanReply("b") == "b" && CleanPiece("b") == ["b"]
  {
    assert 'b' !in ReplyNoise;
    assert LeadingIn("b", ReplyNoise) == 0;
    assert TrailingIn("b", ReplyNoise) == 0;
    assert Strip("b", ReplyNoise) == "b";
    assert LeadingIn("b", "'") == 0;
    assert TrailingIn("b", "'") == 0;
  }

  lemma PiecesOfExample()
    ensures Pieces("1,b") == ["1", "b"]
  {
    assert ',' in "1,b" by { assert "1,b"[1] == ','; }
    SplitOneCommaB();
  }

  /** Two pieces clean to what each contributes, in order. */
  lemma CleanNonEmptyPair(a: string, b: string)
    ensures CleanNonEmpty([a, b]) == CleanPiece(a) + CleanPiece(b)
  {
    assert [a, b][1..] == [b];
    assert [b][1..] == [];
  }

  lemma CleanNonEmptyOfExample()
    ensures CleanNonEmpty(["1", "b"]) == ["", "b"]
  {
    CleanReplyOfDigit();
    CleanReplyOfLetter();
    CleanNonEmptyPair("1", "b");
  }

  /** A piece made only of noise cleans to "", and is still reported. */
  lemma ParseListKeepsEmptyItems()
    ensures ParseList("1,b") == ["", "b"]
  {
    PiecesOfExample();
    CleanNonEmptyOfExample();
  }

  // ------------------------------------------------------------------
  // JSON ranked list
  // ------------------------------------------------------------------

  /** What `json.loads` gives back: a flat object's (name, rank) pairs in order, or a failure. */
  datatype Decoded = Undecodable | Object(items: seq<(string, int)>)

  /** Characters trimmed around a fenced JSON reply: backtick, space, newline. */
  const FenceChars: string := "` \n"

  /** The text handed to the decoder: fences trimmed, then at most one leading "json" removed. */
  function JsonPayload(text: string): (payload: string)
    ensures IsSliceOf(payload, text)
    ensures var t := Strip(text, FenceChars);
            ("json" <= t ==> t == "json" + payload) && (!("json" <= t) ==> payload == t)
  {
    var t := Strip(text, FenceChars);
    if "json" <= t then
      assert t == t[..4] + t[4..];
      assert t[4..] == t[4..|t|];
      SliceOfSlice(t[4..], t, text);
      t[4..]
    else t
  }

  /** Inserts `x` before the first entry ranked no lower, i.e. after all strictly better ones. */
  function InsertByRank(x: (string, int), s: seq<(string, int)>): seq<(string, int)>
  {
    if s == [] || x.1 <= s[0].1 then [x] + s
    else [s[0]] + InsertByRank(x, s[1..])
  }

  /** Python's stable `sorted(..., key=rank)`, as an insertion sort. */
  function SortByRank(items: seq<(string, int)>): seq<(string, int)>
  {
    if items == [] then [] else InsertByRank(items[0], SortByRank(items[1..]))
  }

  /** The names of a list of (name, rank) pairs. */
  function Names(s: seq<(string, int)>): (names: seq<string>)
    ensures |names| == |s|
    ensures forall i :: 0 <= i < |s| ==> names[i] == s[i].0
  {
    if s == [] then [] else [s[0].0] + Names(s[1..])
  }

  /** Ranks never decrease along `s`. */
  ghost predicate RanksSorted(s: seq<(string, int)>)
  {
    forall i, j :: 0 <= i < j < |s| ==> s[i].1 <= s[j].1
  }

  /** The entries of `s` of rank `v`, in their order in `s`. */
  function WithRank(s: seq<(string, int)>, v: int): seq<(string, int)>
  {
    if s == [] then [] else (if s[0].1 == v then [s[0]] else []) + WithRank(s[1..], v)
  }

  lemma {:induction false} InsertByRankPermutes(x: (string, int), s: seq<(string, int)>)
    ensures multiset(InsertByRank(x, s)) == multiset([x]) + multiset(s)
  {
    if s != [] && x.1 > s[0].1 {
      InsertByRankPermutes(x, s[1..]);
      assert s == [s[0]] + s[1..];
      assert InsertByRank(x, s) == [s[0]] + InsertByRank(x, s[1..]);
    }
  }

  lemma {:induction false} InsertByRankNames(x: (string, int), s: seq<(string, int)>)
    ensures multiset(Names(InsertByRank(x, s))) == multiset([x.0]) + multiset(Names(s))
  {
    if s != [] && x.1 > s[0].1 {
      InsertByRankNames(x, s[1..]);
      var r := InsertByRank(x, s[1..]);
      assert Names(s) == [s[0].0] + Names(s[1..]);
      assert InsertByRank(x, s) == [s[0]] + r;
      assert Names([s[0]] + r) == [s[0].0] + Names(r);
    } else {
      assert Names([x] + s) == [x.0] + Names(s);
    }
  }

  /** Inserting an entry ranked `lo` or later into entries ranked `lo` or later keeps that bound. */
  lemma {:induction false} InsertByRankBound(x: (string, int), s: seq<(string, int)>, lo: int)
    requires lo <= x.1 && forall i :: 0 <= i < |s| ==> lo <= s[i].1
    ensures forall i :: 0 <= i < |InsertByRank(x, s)| ==> lo <= InsertByRank(x, s)[i].1
  {
    if s != [] && x.1 > s[0].1 {
      InsertByRankBound(x, s[1..], lo);
      var r := InsertByRank(x, s[1..]);
      assert InsertByRank(x, s) == [s[0]] + r;
    }
  }

  lemma {:induction false} InsertByRankSorted(x: (string, int), s: seq<(string, int)>)
    requires RanksSorted(s)
    ensures RanksSorted(InsertByRank(x, s))
  {
    if s != [] && x.1 > s[0].1 {
      InsertByRankSorted(x, s[1..]);
      InsertByRankBound(x, s[1..], s[0].1);
      var r := InsertByRank(x, s[1..]);
      var t := InsertByRank(x, s);
      assert t == [s[0]] + r;
      forall i, j | 0 <= i < j < |t| ensures t[i].1 <= t[j].1 {
        assert t[j] == r[j - 1];
        if i > 0 {
          assert t[i] == r[i - 1];
        }
      }
    }
  }

  /** Inserting `x` in front of an entry of its rank keeps the entries of each rank in order. */
  lemma {:induction false} InsertByRankStable(x: (string, int), s: seq<(string, int)>, v: int)
    requires RanksSorted(s)
    ensures WithRank(InsertByRank(x, s), v)
         == (if x.1 == v then [x] else []) + WithRank(s, v)
  {
    if s != [] && x.1 > s[0].1 {
      InsertByRankStable(x, s[1..], v);
      assert InsertByRank(x, s)[1..] == InsertByRank(x, s[1..]);
      if x.1 == v {
        assert s[0].1 != v;
      }
    } else {
      assert ([x] + s)[1..] == s;
    }
  }

  lemma {:induction false} SortByRankSorted(items: seq<(string, int)>)
    ensures RanksSorted(SortByRank(items))
  {
    if items != [] {
      SortByRankSorted(items[1..]);
      InsertByRankSorted(items[0], SortByRank(items[1..]));
    }
  }

  lemma {:induction false} SortByRankPermutes(items: seq<(string, int)>)
    ensures multiset(SortByRank(items)) == multiset(items)
  {
    if items != [] {
      SortByRankPermutes(items[1..]);
      InsertByRankPermutes(items[0], SortByRank(items[1..]));
      assert items == [items[0]] + items[1..];
    }
  }

  /** The sort keeps the multiset of names that were ranked. */
  lemma {:induction false} SortByRankNames(items: seq<(string, int)>)
    ensures multiset(Names(SortByRank(items))) == multiset(Names(items))
  {
    if items != [] {
      SortByRankNames(items[1..]);
      InsertByRankNames(items[0], SortByRank(items[1..]));
      assert Names(items) == [items[0].0] + Names(items[1..]);
    }
  }

  lemma {:induction false} SortByRankStable(items: seq<(string, int)>, v: int)
    ensures WithRank(SortByRank(items), v) == WithRank(items, v)
  {
    if items != [] {
      SortByRankStable(items[1..], v);
      SortByRankSorted(items[1..]);
      InsertByRankStable(items[0], SortByRank(items[1..]), v);
    }
  }

  /** The sort orders by rank, keeps every entry, and keeps equal-rank entries in input order. */
  lemma SortByRankCorrect(items: seq<(string, int)>)
    ensures RanksSorted(SortByRank(items))
    ensures multiset(SortByRank(items)) == multiset(items)
    ensures multiset(Names(SortByRank(items))) == multiset(Names(items))
    ensures forall v :: WithRank(SortByRank(items), v) == WithRank(items, v)
  {
    SortByRankSorted(items);
    SortByRankPermutes(items);
    SortByRankNames(items);
    forall v ensures WithRank(SortByRank(items), v) == WithRank(items, v) {
      SortByRankStable(items, v);
    }
  }

  /** `parse_json_ranked_list`: decode the trimmed text, order the names by rank. No validation. */
  function ParseJsonRankedList(text: string, loads: string -> Decoded): (r: Result<seq<string>, Error>)
    ensures r.Err? <==> loads(JsonPayload(text)).Undecodable?
    ensures r.Err? ==> r.error == JSONDecodeError
    ensures r.Ok? ==> multiset(r.value) == multiset(Names(loads(JsonPayload(text)).items))
  {
    match loads(JsonPayload(text))
    case Undecodable => Err(JSONDecodeError)
    case Object(items) =>
      SortByRankCorrect(items);
      Ok(Names(SortByRank(items)))
  }

  /** The parsed names are those of the decoded pairs, sorted by rank, ties in decoded order. */
  lemma ParseJsonRankedListOrder(text: string, loads: string -> Decoded)
    requires loads(JsonPayload(text)).Object?
    ensures var items := loads(JsonPayload(text)).items;
            var sorted := SortByRank(items);
            && ParseJsonRankedList(text, loads) == Ok(Names(sorted))
            && RanksSorted(sorted)
            && multiset(sorted) == multiset(items)
            && forall v :: WithRank(sorted, v) == WithRank(items, v)
  {
    SortByRankCorrect(loads(JsonPayload(text)).items);
  }

  /** A text that starts and ends outside `cs` is left as it is. */
  lemma StripUntouched(s: string, cs: string)
    requires |s| > 0 && s[0] !in cs && s[|s| - 1] !in cs
    ensures Strip(s, cs) == s
  {
    assert LeadingIn(s, cs) == 0;
    assert s[0..] == s;
    assert TrailingIn(s, cs) == 0;
  }

  /** A leading character of `cs` is stripped. */
  lemma StripFront(c: char, s: string, cs: string)
    requires c in cs
    ensures Strip([c] + s, cs) == Strip(s, cs)
  {
    assert ([c] + s)[1..] == s;
    assert LeadingIn([c] + s, cs) == 1 + LeadingIn(s, cs);
    assert ([c] + s)[1 + LeadingIn(s, cs)..] == s[LeadingIn(s, cs)..];
  }

  /** A trailing character of `cs` is stripped, in a text that starts outside `cs`. */
  lemma StripBack(s: string, c: char, cs: string)
    requires |s| > 0 && s[0] !in cs && c in cs
    ensures Strip(s + [c], cs) == Strip(s, cs)
  {
    var t := s + [c];
    assert LeadingIn(t, cs) == 0 && LeadingIn(s, cs) == 0;
    assert t[0..] == t && s[0..] == s;
    assert t[..|t| - 1] == s;
    assert TrailingIn(t, cs) == 1 + TrailingIn(s, cs);
    assert t[..|t| - TrailingIn(t, cs)] == s[..|s| - TrailingIn(s, cs)];
  }

  /** Leading characters that all belong to `cs` are stripped. */
  lemma {:induction false} StripPrefixIn(p: string, s: string, cs: string)
    requires forall i :: 0 <= i < |p| ==> p[i] in cs
    ensures Strip(p + s, cs) == Strip(s, cs)
    decreases |p|
  {
    if p != [] {
      assert p + s == [p[0]] + (p[1..] + s);
      StripFront(p[0], p[1..] + s, cs);
      StripPrefixIn(p[1..], s, cs);
    } else {
      assert p + s == s;
    }
  }

  /** Trailing characters that all belong to `cs` are stripped, in a text that starts outside `cs`. */
  lemma {:induction false} StripSuffixIn(s: string, p: string, cs: string)
    requires |s| > 0 && s[0] !in cs
    requires forall i :: 0 <= i < |p| ==> p[i] in cs
    ensures Strip(s + p, cs) == Strip(s, cs)
    decreases |p|
  {
    if p != [] {
      var q := p[..|p| - 1];
      assert s + p == (s + q) + [p[|p| - 1]];
      StripBack(s + q, p[|p| - 1], cs);
      StripSuffixIn(s, q, cs);
    } else {
      assert s + p == s;
    }
  }

  /** A fenced JSON block is the opening fence, then the tagged body, then the closing fence. */
  lemma FencedBlockParts(body: string)
    ensures "```json" + body + "\n```" == "```" + (("json" + body) + "\n```")
  {
    var fence, core, close := "```", "json" + body, "\n```";
    assert "```json" == fence + "json";
    assert "```json" + body == fence + core;
    assert (fence + core) + close == fence + (core + close);
  }

  /** The fences around a JSON code block, and the newline before the closing one, are trimmed. */
  lemma StripFencedBlock(body: string)
    requires |body| > 0 && body[|body| - 1] !in FenceChars
    ensures Strip("```json" + body + "\n```", FenceChars) == "json" + body
  {
    var fence, core, close := "```", "json" + body, "\n```";
    assert core[0] == 'j' && 'j' !in FenceChars;
    assert core[|core| - 1] == body[|body| - 1];
    assert forall i :: 0 <= i < |fence| ==> fence[i] in FenceChars;
    assert forall i :: 0 <= i < |close| ==> close[i] in FenceChars;
    StripUntouched(core, FenceChars);
    StripSuffixIn(core, close, FenceChars);
    StripPrefixIn(fence, core + close, FenceChars);
    FencedBlockParts(body);
  }

  /**
   * A reply fenced as a JSON code block reaches the decoder as the block's body: the fences
   * and the newline before the closing one are trimmed, then the "json" tag is removed.
   */
  lemma JsonPayloadOfFencedReply(body: string)
    requires |body| > 0 && body[|body| - 1] !in FenceChars
    ensures JsonPayload("```json" + body + "\n```") == body
  {
    StripFencedBlock(body);
    var core := "json" + body;
    assert "json" <= core;
    assert core[4..] == body;
  }

  /** Only one "json" tag is removed. */
  lemma JsonPayloadRemovesOneTag()
    ensures JsonPayload("jsonjson{}") == "json{}"
  {
    var s := "jsonjson{}";
    assert s[0] == 'j' && 'j' !in FenceChars;
    assert s[|s| - 1] == '}' && '}' !in FenceChars;
    StripUntouched(s, FenceChars);
    assert "json" <= s;
    assert s[4..] == "json{}";
  }

  // ------------------------------------------------------------------
  // Operations that every adapter inherits
  // ------------------------------------------------------------------

  /** What is sent to a provider (temperature is not modelled). */
  datatype Question = Question(systemPrompt: string, text: string, isJson: bool)

  /** `ask_for_open_list` on the reply of `ask_generic_question`: no handler, so a decode error propagates. */
  function AskForOpenList(reply: SimpleResponse, loads: string -> Decoded): (r: Result<Response, Error>)
    ensures r.Err? <==> loads(JsonPayload(reply.answer)).Undecodable?
    ensures r.Err? ==> r.error == JSONDecodeError
    ensures r.Ok? ==> r.value.answers == ParseJsonRankedList(reply.answer, loads).value
    ensures r.Ok? ==> r.value.inputTokens == reply.inputTokens && r.value.outputTokens == reply.outputTokens
  {
    match ParseJsonRankedList(reply.answer, loads)
    case Err(e) => Err(e)
    case Ok(answers) => Ok(Response(answers, reply.inputTokens, reply.outputTokens))
  }

  /** The sentinel's empty answer reaches the decoder as "", which `json.loads` rejects. */
  lemma AskForOpenListOfEmptyAnswer(loads: string -> Decoded)
    requires loads("") == Undecodable
    ensures AskForOpenList(EmptyAnswer, loads) == Err(JSONDecodeError)
  {
    assert LeadingIn("", FenceChars) == 0;
    assert JsonPayload("") == "";
  }

  function Min(a: int, b: int): int { if a <= b then a else b }

  function Max(a: int, b: int): int { if a >= b then a else b }

  /** Python's `s[:n]`: a negative `n` counts from the end. */
  function PyPrefix<T>(s: seq<T>, n: int): seq<T>
  {
    if n >= 0 then s[..Min(n, |s|)] else s[..Max(0, |s| + n)]
  }

  /** The truncation both `ask_for_list` adapters apply: keep the first `choices` answers. */
  function KeepFirst(result: Response, choices: int): (r: Response)
    ensures r.inputTokens == result.inputTokens && r.outputTokens == result.outputTokens
    ensures r.answers <= result.answers
    ensures |result.answers| <= choices ==> r == result
    ensures choices >= 0 ==> |r.answers| == Min(choices, |result.answers|)
    ensures choices < 0 ==> |r.answers| == Max(0, |result.answers| + choices)
  {
    if |result.answers| > choices then result.(answers := PyPrefix(result.answers, choices))
    else result
  }

  // ------------------------------------------------------------------
  // Generic retry loop
  // ------------------------------------------------------------------

  /** What one provider call gives: a response, or an exception. */
  datatype Outcome = Answered(response: SimpleResponse) | Raised(error: Error)

  /** What the retry loop ends with: a response, the last exception re-raised, or Python's None. */
  datatype RetryResult = Returned(response: SimpleResponse) | Reraised(error: Error) | ReturnedNone

  /** A run of the retry loop: its result, the seconds slept, and the number of calls made. */
  datatype RetryRun = RetryRun(result: RetryResult, waits: seq<int>, calls: nat)

  function Pow2(k: nat): (p: nat)
    ensures p >= 1
  {
    if k == 0 then 1 else 2 * Pow2(k - 1)
  }

  /**
   * Reference definition of `ask_generic_question_with_retries` from attempt `retry` on;
   * `ask(q, k)` is what the provider does on attempt `k`.
   */
  function Retrying(ask: (Question, nat) -> Outcome, q: Question, maxRetries: int, retry: nat): RetryRun
    decreases if maxRetries > retry then maxRetries - retry else 0
  {
    if retry >= maxRetries then RetryRun(ReturnedNone, [], 0)
    else match ask(q, retry)
      case Answered(resp) => RetryRun(Returned(resp), [], 1)
      case Raised(e) =>
        if retry == maxRetries - 1 then RetryRun(Reraised(e), [], 1)
        else
          var rest := Retrying(ask, q, maxRetries, retry + 1);
          RetryRun(rest.result, [Pow2(retry)] + rest.waits, rest.calls + 1)
  }

  /** `ask_generic_question_with_retries`, with the sleeps recorded in `waits`. */
  method AskGenericQuestionWithRetries(q: Question, ask: (Question, nat) -> Outcome, maxRetries: int)
    returns (result: RetryResult, waits: seq<int>, calls: nat)
    ensures RetryRun(result, waits, calls) == Retrying(ask, q, maxRetries, 0)
  {
    waits, calls := [], 0;
    var retry: nat := 0;
    while retry < maxRetries
      invariant calls == retry
      invariant retry > 0 ==> retry < maxRetries
      invariant var rest := Retrying(ask, q, maxRetries, retry);
                Retrying(ask, q, maxRetries, 0) == RetryRun(rest.result, waits + rest.waits, calls + rest.calls)
      decreases maxRetries - retry
    {
      var outcome := ask(q, retry);
      calls := calls + 1;
      match outcome
      case Answered(resp) =>
        result := Returned(resp);
        return;
      case Raised(e) =>
        if retry == maxRetries - 1 {
          result := Reraised(e);
          return;
        }
        ghost var rest := Retrying(ask, q, maxRetries, retry + 1);
        assert waits + ([Pow2(retry)] + rest.waits) == (waits + [Pow2(retry)]) + rest.waits;
        waits := waits + [Pow2(retry)];
      retry := retry + 1;
    }
    result := ReturnedNone;
  }

  /** The shape of a run that starts at attempt `retry` below the limit. */
  lemma {:induction false} RetryingShape(ask: (Question, nat) -> Outcome, q: Question, maxRetries: int, retry: nat)
    requires retry < maxRetries
    ensures var run := Retrying(ask, q, maxRetries, retry);
            && 1 <= run.calls && retry + run.calls <= maxRetries
            && !run.result.ReturnedNone?
            && (forall k :: retry <= k < retry + run.calls - 1 ==> ask(q, k).Raised?)
            && |run.waits| == run.calls - 1
            && (forall i :: 0 <= i < |run.waits| ==> run.waits[i] == Pow2(retry + i))
            && (run.result.Returned? ==> ask(q, retry + run.calls - 1) == Answered(run.result.response))
            && (run.result.Reraised? ==> retry + run.calls == maxRetries
                                          && ask(q, maxRetries - 1) == Raised(run.result.error))
    decreases maxRetries - retry
  {
    if ask(q, retry).Raised? && retry != maxRetries - 1 {
      RetryingShape(ask, q, maxRetries, retry + 1);
    }
  }

  /**
   * The retry policy: at most `maxRetries` calls, the first success is returned, attempt k+1
   * comes 2^k seconds after attempt k, the last exception is re-raised when every attempt
   * fails, and no call at all is made (None is returned) when `maxRetries` is not positive.
   */
  lemma RetryPolicy(ask: (Question, nat) -> Outcome, q: Question, maxRetries: int)
    ensures var run := Retrying(ask, q, maxRetries, 0);
            && run.calls <= Max(maxRetries, 0)
            && (run.result.ReturnedNone? <==> maxRetries <= 0)
            && (maxRetries <= 0 ==> run == RetryRun(ReturnedNone, [], 0))
            && (forall k :: 0 <= k < run.calls - 1 ==> ask(q, k).Raised?)
            && |run.waits| == Max(run.calls - 1, 0)
            && (forall i :: 0 <= i < |run.waits| ==> run.waits[i] == Pow2(i))
            && (run.result.Returned? ==> ask(q, run.calls - 1) == Answered(run.result.response))
            && (run.result.Reraised? <==> maxRetries > 0 && forall k :: 0 <= k < maxRetries ==> ask(q, k).Raised?)
            && (run.result.Reraised? ==> run.calls == maxRetries && ask(q, maxRetries - 1) == Raised(run.result.error))
  {
    var run := Retrying(ask, q, maxRetries, 0);
    if maxRetries > 0 {
      RetryingShape(ask, q, maxRetries, 0);
      if forall k :: 0 <= k < maxRetries ==> ask(q, k).Raised? {
        assert ask(q, run.calls - 1).Raised?;
      }
    }
  }

  /** The one-word system prompt the base `choice_from_pair` always sends. */
  const OneWordPrompt: string := "In one word answer the following question"

  /**
   * `choice_from_pair` of the base class: whatever system prompt the caller passes, it asks the
   * one-word question in text mode, through the retry loop with its default of 10 attempts.
   */
  method ChoiceFromPair(question: string, systemPrompt: Option<string>, ask: (Question, nat) -> Outcome)
    returns (result: RetryResult, waits: seq<int>, calls: nat)
    ensures RetryRun(result, waits, calls) == Retrying(ask, Question(OneWordPrompt, question, false), 10, 0)
  {
    result, waits, calls := AskGenericQuestionWithRetries(Question(OneWordPrompt, question, false), ask, 10);
  }
}
