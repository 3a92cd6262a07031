/**
  The canonical match key of an entity name: lower-cased words joined by single blanks,
  with leading qualifiers dropped while at least two words remain.
*/
module EntityNaming {
  import opened Common

  const QUALIFIERS: set<string> := {"the", "a", "an", "new", "old", "current", "existing", "legacy"}

  function LowerChar(c: char): char {
    if 'A' <= c <= 'Z' then (c as int + 32) as char else c
  }

  function Lower(s: string): (r: string)
    ensures |r| == |s| && forall i :: 0 <= i < |s| ==> r[i] == LowerChar(s[i])
  {
    seq(|s|, i requires 0 <= i < |s| => LowerChar(s[i]))
  }

  /** Every run of white space becomes one blank. */
  function Collapse(s: string): string {
    if s == [] then []
    else if !Space(s[0]) then [s[0]] + Collapse(s[1..])
    else if |s| > 1 && Space(s[1]) then Collapse(s[1..])
    else [' '] + Collapse(s[1..])
  }

  function Normalize(name: string): string {
    Collapse(Lower(Strip(name)))
  }

  /** Splitting at each blank; the empty string is one empty token. */
  function Split(s: string): (tokens: seq<string>)
    ensures tokens != []
  {
    if s == [] then [""]
    else
      var rest := Split(s[1..]);
      if s[0] == ' ' then [""] + rest else [[s[0]] + rest[0]] + rest[1..]
  }

  function Join(tokens: seq<string>): string {
    if tokens == [] then []
    else if |tokens| == 1 then tokens[0]
    else tokens[0] + [' '] + Join(tokens[1..])
  }

  /* ---- the reference: a name is its words ---- */

  ghost predicate StartsWord(s: string) {
    s != [] && !Space(s[0])
  }

  /** The maximal runs without white space, lower-cased. */
  ghost function Words(s: string): (words: seq<string>)
    ensures StartsWord(s) ==> words != []
  {
    if s == [] then []
    else if Space(s[0]) then Words(s[1..])
    else
      var rest, c := Words(s[1..]), LowerChar(s[0]);
      if StartsWord(s[1..]) then [[c] + rest[0]] + rest[1..] else [[c]] + rest
  }

  /** Leading qualifiers dropped while two tokens remain. */
  ghost function Bare(tokens: seq<string>): seq<string> {
    if |tokens| >= 3 && tokens[0] in QUALIFIERS then Bare(tokens[1..]) else tokens
  }

  ghost function Key(name: string): string {
    Join(Bare(Words(name)))
  }

  method CanonicalMatchKey(name: string) returns (key: string)
    ensures key == Key(name)
  {
    var tokens := Split(Normalize(name));
    TokensAreWords(name);
    while |tokens| >= 3 && tokens[0] in QUALIFIERS
      invariant Bare(tokens) == Bare(Split(Normalize(name)))
    {
      tokens := tokens[1..];
    }
    key := Join(tokens);
  }

  /* ---- the normaliser keeps the words ---- */

  lemma {:induction false} WordsOfBlankEnd(s: string, c: char)
    requires Space(c)
    ensures Words(s + [c]) == Words(s)
  {
    if s != [] {
      WordsOfBlankEnd(s[1..], c);
      assert (s + [c])[1..] == s[1..] + [c];
    }
  }

  lemma {:induction false} WordsOfStripLeft(s: string)
    ensures Words(StripLeft(s)) == Words(s) && (StripLeft(s) == [] || StartsWord(StripLeft(s)))
  {
    if s != [] && Space(s[0]) {
      WordsOfStripLeft(s[1..]);
    }
  }

  lemma {:induction false} WordsOfStripRight(s: string)
    ensures Words(StripRight(s)) == Words(s)
    ensures StripRight(s) == [] || !Space(StripRight(s)[|StripRight(s)| - 1])
    ensures StartsWord(s) ==> StartsWord(StripRight(s))
  {
    if s != [] && Space(s[|s| - 1]) {
      var rest := s[..|s| - 1];
      WordsOfStripRight(rest);
      WordsOfBlankEnd(rest, s[|s| - 1]);
      assert rest + [s[|s| - 1]] == s;
    }
  }

  lemma LowerCharTwice(c: char)
    ensures LowerChar(LowerChar(c)) == LowerChar(c)
    ensures Space(LowerChar(c)) <==> Space(c)
    ensures LowerChar(c) == ' ' <==> c == ' '
  {
  }

  lemma {:induction false} WordsOfLower(s: string)
    ensures Words(Lower(s)) == Words(s)
  {
    if s != [] {
      WordsOfLower(s[1..]);
      assert Lower(s)[1..] == Lower(s[1..]);
      LowerCharTwice(s[0]);
      if |s| > 1 {
        LowerCharTwice(s[1]);
      }
    }
  }

  /** Lower case, blanks only, no two together and none at the end. */
  ghost predicate Tidy(s: string) {
    && (forall i :: 0 <= i < |s| ==> LowerChar(s[i]) == s[i] && (Space(s[i]) ==> s[i] == ' '))
    && (forall i :: 0 <= i < |s| - 1 ==> !(s[i] == ' ' && s[i + 1] == ' '))
    && (s != [] ==> s[|s| - 1] != ' ')
  }

  lemma TidyCons(c: char, s: string)
    requires Tidy(s) && LowerChar(c) == c
    requires !Space(c) || (c == ' ' && StartsWord(s))
    ensures Tidy([c] + s)
  {
    var t := [c] + s;
    assert forall i :: 1 <= i < |t| ==> t[i] == s[i - 1];
  }

  lemma {:induction false} CollapseIsTidy(s: string)
    requires s != [] ==> !Space(s[|s| - 1])
    requires forall i :: 0 <= i < |s| ==> LowerChar(s[i]) == s[i]
    ensures Tidy(Collapse(s)) && Words(Collapse(s)) == Words(s)
    ensures StartsWord(s) <==> StartsWord(Collapse(s))
  {
    if s != [] {
      var tail := s[1..];
      CollapseIsTidy(tail);
      if !(Space(s[0]) && |s| > 1 && Space(s[1])) {
        var c := if Space(s[0]) then ' ' else s[0];
        assert Collapse(s) == [c] + Collapse(tail);
        TidyCons(c, Collapse(tail));
        WordsCons(s[0], tail, c, Collapse(tail));
        assert [s[0]] + tail == s;
      }
    }
  }

  lemma WordsCons(b: char, s: string, c: char, t: string)
    requires c == if Space(b) then ' ' else b
    requires Words(s) == Words(t) && (StartsWord(s) <==> StartsWord(t))
    ensures Words([b] + s) == Words([c] + t)
  {
    assert ([b] + s)[1..] == s && ([c] + t)[1..] == t;
  }

  lemma {:induction false} SplitOfTidy(s: string)
    requires Tidy(s)
    ensures Split(s) == if s == [] || s[0] == ' ' then [""] + Words(s) else Words(s)
  {
    if s == [] {
      assert [""] + Words(s) == [""];
    } else {
      var rest := s[1..];
      assert Tidy(rest) by {
        assert forall i :: 0 <= i < |rest| ==> rest[i] == s[i + 1];
      }
      SplitOfTidy(rest);
      if s[0] != ' ' && !StartsWord(rest) {
        assert Split(rest)[0] == "" && Split(rest)[1..] == Words(rest);
        assert [s[0]] + "" == [s[0]];
      }
    }
  }

  lemma NormalizeIsTidy(name: string)
    ensures Tidy(Normalize(name)) && Words(Normalize(name)) == Words(name)
    ensures Normalize(name) == [] || StartsWord(Normalize(name))
  {
    var left := StripLeft(name);
    var stripped := StripRight(left);
    WordsOfStripLeft(name);
    WordsOfStripRight(left);
    WordsOfLower(stripped);
    forall i | 0 <= i < |stripped|
      ensures LowerChar(Lower(stripped)[i]) == Lower(stripped)[i] && (Space(Lower(stripped)[i]) <==> Space(stripped[i]))
    {
      LowerCharTwice(stripped[i]);
    }
    CollapseIsTidy(Lower(stripped));
  }

  /** The tokens the code works on are the words, or one empty token when there are none. */
  lemma TokensAreWords(name: string)
    ensures Split(Normalize(name)) == if Words(name) == [] then [""] else Words(name)
    ensures Join(Bare(Split(Normalize(name)))) == Key(name)
  {
    NormalizeIsTidy(name);
    SplitOfTidy(Normalize(name));
  }

  /* ---- words and names determine each other ---- */

  ghost predicate IsWord(w: string) {
    w != [] && forall i :: 0 <= i < |w| ==> !Space(w[i]) && LowerChar(w[i]) == w[i]
  }

  lemma {:induction false} WordsAreWords(s: string)
    ensures forall w :: w in Words(s) ==> IsWord(w)
  {
    if s != [] {
      WordsAreWords(s[1..]);
      LowerCharTwice(s[0]);
      var rest, c := Words(s[1..]), LowerChar(s[0]);
      forall w | w in Words(s)
        ensures IsWord(w)
      {
        if StartsWord(s) && w == Words(s)[0] {
          assert StartsWord(s[1..]) ==> w == [c] + rest[0] && IsWord(rest[0]);
        } else {
          assert w in rest;
        }
      }
    }
  }

  lemma {:induction false} WordsOfJoined(a: string, c: char, b: string)
    requires Space(c)
    ensures Words(a + [c] + b) == Words(a) + Words(b)
  {
    var all := a + [c] + b;
    if a == [] {
      assert all[0] == c && all[1..] == b;
    } else {
      WordsOfJoined(a[1..], c, b);
      assert a == [a[0]] + a[1..] && all == [a[0]] + (a[1..] + [c] + b);
      WordsAfter(a[0], a[1..], a[1..] + [c] + b, Words(b));
    }
  }

  lemma WordsAfter(x: char, s: string, t: string, more: seq<string>)
    requires Words(t) == Words(s) + more && StartsWord(s) == StartsWord(t)
    ensures Words([x] + t) == Words([x] + s) + more
  {
    assert ([x] + s)[1..] == s && ([x] + t)[1..] == t;
  }

  lemma {:induction false} WordsOfWord(w: string)
    requires IsWord(w)
    ensures Words(w) == [w]
  {
    assert w == [w[0]] + w[1..];
    if |w| > 1 {
      WordsOfWord(w[1..]);
      assert StartsWord(w[1..]);
    } else {
      assert w[1..] == [] && w == [LowerChar(w[0])];
    }
  }

  lemma {:induction false} WordsOfJoin(words: seq<string>)
    requires forall w :: w in words ==> IsWord(w)
    ensures Words(Join(words)) == words
  {
    if words != [] {
      WordsOfWord(words[0]);
      if |words| > 1 {
        WordsOfJoin(words[1..]);
        WordsOfJoined(words[0], ' ', Join(words[1..]));
      }
    }
  }

  /* ---- the stripped suffix ---- */

  /** Dropping `k` tokens drops qualifiers only, leaves two, and cannot go on. */
  ghost predicate IsBare(tokens: seq<string>, k: nat)
    requires k <= |tokens|
  {
    && (forall i :: 0 <= i < k ==> tokens[i] in QUALIFIERS)
    && (k > 0 ==> |tokens| - k >= 2)
    && (|tokens| - k >= 3 ==> tokens[k] !in QUALIFIERS)
  }

  lemma {:induction false} BareIsMaximal(tokens: seq<string>) returns (k: nat)
    ensures k <= |tokens| && IsBare(tokens, k) && Bare(tokens) == tokens[k..]
  {
    k := 0;
    if |tokens| >= 3 && tokens[0] in QUALIFIERS {
      var j := BareIsMaximal(tokens[1..]);
      k := j + 1;
      assert forall i :: 1 <= i < k ==> tokens[i] == tokens[1..][i - 1];
    }
  }

  /** No other number of dropped tokens will do. */
  lemma BareIff(tokens: seq<string>, k: nat)
    requires k <= |tokens|
    ensures Bare(tokens) == tokens[k..] <==> IsBare(tokens, k)
  {
    var j := BareIsMaximal(tokens);
    assert |tokens[k..]| == |tokens| - k && |tokens[j..]| == |tokens| - j;
  }

  lemma BareOnce(tokens: seq<string>)
    ensures Bare(Bare(tokens)) == Bare(tokens)
    ensures forall t :: t in Bare(tokens) ==> t in tokens
    ensures |Bare(tokens)| >= 2 || Bare(tokens) == tokens
  {
    var k := BareIsMaximal(tokens);
    assert k == 0 ==> tokens[k..] == tokens;
  }

  lemma {:induction false} BareOfQualified(prefix: seq<string>, tokens: seq<string>)
    requires forall t :: t in prefix ==> t in QUALIFIERS
    ensures |tokens| >= 2 ==> Bare(prefix + tokens) == Bare(tokens)
    ensures |tokens| == 1 && prefix != [] ==> |Bare(prefix + tokens)| == 2
    ensures tokens == [] && prefix != [] ==> Bare(prefix + tokens) != []
  {
    if prefix == [] {
      assert prefix + tokens == tokens;
    } else {
      assert (prefix + tokens)[1..] == prefix[1..] + tokens;
      assert (prefix + tokens)[0] in QUALIFIERS;
      BareOfQualified(prefix[1..], tokens);
    }
  }

  /* ---- the key as an identity ---- */

  lemma WordsOfKey(name: string)
    ensures Words(Key(name)) == Bare(Words(name))
  {
    WordsAreWords(name);
    BareOnce(Words(name));
    WordsOfJoin(Bare(Words(name)));
  }

  lemma KeyIsIdempotent(name: string)
    ensures Key(Key(name)) == Key(name)
    ensures Normalize(Key(name)) == Key(name)
    ensures |Words(Key(name))| >= 2 || Words(Key(name)) == Words(name)
  {
    WordsOfKey(name);
    BareOnce(Words(name));
    NormalizeOf(Key(name), Bare(Words(name)));
  }

  lemma {:induction false} JoinOfSplit(s: string)
    ensures Join(Split(s)) == s
  {
    if s != [] {
      JoinOfSplit(s[1..]);
      JoinAfter(s[0], Split(s[1..]));
      assert s == [s[0]] + s[1..];
    }
  }

  lemma JoinAfter(c: char, rest: seq<string>)
    requires rest != []
    ensures Join([""] + rest) == [' '] + Join(rest)
    ensures Join([[c] + rest[0]] + rest[1..]) == [c] + Join(rest)
  {
    JoinTwo("", rest);
    assert rest == [rest[0]] + rest[1..];
    if |rest| > 1 {
      JoinTwo([c] + rest[0], rest[1..]);
      JoinTwo(rest[0], rest[1..]);
      Regroup(c, rest[0], [' '], Join(rest[1..]));
    }
  }

  lemma JoinTwo(w: string, rest: seq<string>)
    requires rest != []
    ensures Join([w] + rest) == w + [' '] + Join(rest)
  {
    assert ([w] + rest)[1..] == rest;
  }

  lemma Regroup(c: char, w: string, blank: string, rest: string)
    ensures ([c] + w) + blank + rest == [c] + (w + blank + rest)
  {
  }

  lemma NormalizeOf(s: string, words: seq<string>)
    requires Words(s) == words && s == Join(words)
    ensures Normalize(s) == s
  {
    TokensAreWords(s);
    JoinOfSplit(Normalize(s));
  }

  /** The two cases of one letter. */
  predicate SameLetter(c: char, d: char) {
    || c == d
    || ('A' <= c <= 'Z' && d as int == c as int + 32)
    || ('A' <= d <= 'Z' && c as int == d as int + 32)
  }

  /** Lower-casing identifies the two cases of a letter and nothing else, and leaves no capital. */
  lemma LowerIff(c: char, d: char)
    ensures LowerChar(c) == LowerChar(d) <==> SameLetter(c, d)
    ensures !('A' <= LowerChar(c) <= 'Z')
    ensures !('A' <= c <= 'Z') ==> LowerChar(c) == c
  {
  }

  /** No capital letter is left in a key. */
  lemma {:induction false} KeyHasNoCapital(name: string, c: char)
    requires c in Key(name)
    ensures !('A' <= c <= 'Z')
  {
    WordsAreWords(name);
    BareAreTokens(Words(name));
    CharOfJoin(Bare(Words(name)), c);
  }

  lemma {:induction false} BareAreTokens(tokens: seq<string>)
    ensures forall w :: w in Bare(tokens) ==> w in tokens
  {
    if |tokens| >= 3 && tokens[0] in QUALIFIERS {
      BareAreTokens(tokens[1..]);
    }
  }

  lemma {:induction false} CharOfJoin(tokens: seq<string>, c: char)
    requires c in Join(tokens)
    ensures c == ' ' || exists w :: w in tokens && c in w
  {
    if |tokens| > 1 && c !in tokens[0] && c != ' ' {
      CharOfJoin(tokens[1..], c);
    }
  }

  /** Names that differ only in case have one key. */
  lemma {:induction false} CaseIsIgnored(a: string, b: string)
    requires |a| == |b| && forall i :: 0 <= i < |a| ==> SameLetter(a[i], b[i])
    ensures Key(a) == Key(b)
  {
    SameWords(a, b);
  }

  lemma {:induction false} SameWords(a: string, b: string)
    requires |a| == |b| && forall i :: 0 <= i < |a| ==> SameLetter(a[i], b[i])
    ensures Words(a) == Words(b) && (StartsWord(a) <==> StartsWord(b))
  {
    if a != [] {
      LowerIff(a[0], b[0]);
      SameWords(a[1..], b[1..]);
    }
  }

  /** Two names are one entity exactly when their stripped words agree. */
  lemma SameKeyIff(a: string, b: string)
    ensures Key(a) == Key(b) <==> Bare(Words(a)) == Bare(Words(b))
  {
    WordsOfKey(a);
    WordsOfKey(b);
  }

  /** Qualifiers put before a name are ignored exactly when the name has two words of its own. */
  lemma QualifiersAreIgnoredIff(prefix: string, c: char, name: string)
    requires Space(c)
    requires forall t :: t in Words(prefix) ==> t in QUALIFIERS
    ensures Key(prefix + [c] + name) == Key(name) <==> |Words(name)| >= 2 || Words(prefix) == []
  {
    WordsOfJoined(prefix, c, name);
    BareOfQualified(Words(prefix), Words(name));
    SameKeyIff(prefix + [c] + name, name);
    assert Words(prefix) == [] ==> Words(prefix) + Words(name) == Words(name);
  }
}
