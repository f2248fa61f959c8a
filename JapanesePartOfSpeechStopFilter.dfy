/**
 * The Japanese part-of-speech stop filter: a token is kept unless its part-of-speech tag is
 * one of the stop tags. The stop tags are given at construction and never change, so the
 * filter is a value holding them.
 */
module JapanesePartOfSpeechStopFilter {
  import opened Sequences
  import opened Wrappers

  /** A token: its term text and its part-of-speech tag (`None` when the tokenizer set none). */
  datatype Token = Token(term: string, partOfSpeech: Option<string>)

  datatype PosStopFilter = PosStopFilter(stopTags: set<string>) {

    /** `accept`: keep a token whose tag is null or not a stop tag. */
    predicate Accept(t: Token) {
      t.partOfSpeech.None? || t.partOfSpeech.value !in stopTags
    }

    /** The tokens the filter lets through, in input order. */
    function Apply(tokens: seq<Token>): (r: seq<Token>)
      ensures |r| <= |tokens|
      ensures forall t | t in r :: Accept(t)
      ensures forall t | t in tokens && Accept(t) :: t in r
    {
      if tokens == [] then []
      else (if Accept(tokens[0]) then [tokens[0]] else []) + Apply(tokens[1..])
    }
  }

  /** `a` is `b` with some elements dropped, the rest kept in order. */
  predicate IsSubsequence<T(==)>(a: seq<T>, b: seq<T>)
    decreases |b|
  {
    if a == [] then true
    else if b == [] then false
    else if a[0] == b[0] then IsSubsequence(a[1..], b[1..])
    else IsSubsequence(a, b[1..])
  }

  /** A single token passes the filter exactly when its tag is null or not a stop tag; in
      particular a token without a tag is never removed. */
  lemma AcceptIff(f: PosStopFilter, t: Token)
    ensures f.Apply([t]) == if t.partOfSpeech == None || t.partOfSpeech.value !in f.stopTags then [t] else []
    ensures t.partOfSpeech.None? ==> f.Apply([t]) == [t]
  {
  }

  /** Filtering keeps the accepted tokens in input order, and each as often as it occurs:
      the output is a subsequence of the input, and a token occurs in the output as many
      times as in the input when accepted, and never otherwise. */
  lemma {:induction false} ApplyIsOrderedSelection(f: PosStopFilter, tokens: seq<Token>)
    ensures IsSubsequence(f.Apply(tokens), tokens)
    ensures forall t :: multiset(f.Apply(tokens))[t] == if f.Accept(t) then multiset(tokens)[t] else 0
  {
    if tokens != [] {
      ApplyIsOrderedSelection(f, tokens[1..]);
      assert tokens == [tokens[0]] + tokens[1..];
      var rest := f.Apply(tokens[1..]);
      if f.Accept(tokens[0]) {
        assert f.Apply(tokens) == [tokens[0]] + rest;
        assert ([tokens[0]] + rest)[1..] == rest;
      } else {
        assert f.Apply(tokens) == rest;
        SubsequenceOfTail(rest, tokens);
      }
    }
  }

  lemma {:induction false} SubsequenceOfTail<T>(a: seq<T>, b: seq<T>)
    requires b != [] && IsSubsequence(a, b[1..])
    ensures IsSubsequence(a, b)
    decreases |b|, |a|, 1
  {
    if a != [] && a[0] == b[0] {
      SubsequenceDropFirst(a, b[1..]);
    }
  }

  lemma {:induction false} SubsequenceDropFirst<T>(a: seq<T>, b: seq<T>)
    requires a != [] && IsSubsequence(a, b)
    ensures IsSubsequence(a[1..], b)
    decreases |b| + 1, |a|, 0
  {
    assert b != [];
    if a[0] == b[0] {
      SubsequenceOfTail(a[1..], b);
    } else {
      SubsequenceDropFirst(a, b[1..]);
      SubsequenceOfTail(a[1..], b);
    }
  }

  /** Filtering a concatenation filters each part: the filter works token by token. */
  lemma {:induction false} ApplyAppend(f: PosStopFilter, a: seq<Token>, b: seq<Token>)
    ensures f.Apply(a + b) == f.Apply(a) + f.Apply(b)
  {
    if a == [] {
      AppendEmpty(b);
    } else {
      DropFirstOfAppend(a, b);
      ApplyAppend(f, a[1..], b);
    }
  }

  /** With no stop tags every token is kept. */
  lemma {:induction false} NoStopTagsKeepsAll(tokens: seq<Token>)
    ensures PosStopFilter({}).Apply(tokens) == tokens
  {
    if tokens != [] {
      NoStopTagsKeepsAll(tokens[1..]);
    }
  }

  /** Filtering twice gives what filtering once gives. */
  lemma {:induction false} ApplyIdempotent(f: PosStopFilter, tokens: seq<Token>)
    ensures f.Apply(f.Apply(tokens)) == f.Apply(tokens)
  {
    if tokens != [] {
      var t, rest := tokens[0], f.Apply(tokens[1..]);
      ApplyIdempotent(f, tokens[1..]);
      if f.Accept(t) {
        var r := [t] + rest;
        assert f.Apply(tokens) == r;
        assert r[0] == t && r[1..] == rest;
        assert f.Apply(r) == [t] + f.Apply(rest);
      } else {
        assert f.Apply(tokens) == rest;
      }
    }
  }

  /** The tokens without a tag all pass, in order. */
  lemma {:induction false} UntaggedTokensSurvive(f: PosStopFilter, tokens: seq<Token>)
    ensures forall t | t in tokens && t.partOfSpeech.None? :: t in f.Apply(tokens)
    ensures forall t: Token | t.partOfSpeech.None? :: multiset(f.Apply(tokens))[t] == multiset(tokens)[t]
  {
    ApplyIsOrderedSelection(f, tokens);
  }
}
