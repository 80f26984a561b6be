/** The option parser and printer undo each other: what a printed option string reads back as,
    and exactly when a second pass over it changes nothing. */
module RoundTrips {
  import opened Wrappers
  import opened Text
  import opened Sorting
  import opened Core
  import opened SpringProperties

  // ----- printing and parsing again -----

  /** Printing into a container without the variable and parsing again gives the map back
      exactly when the map is printable. */
  lemma RoundTripFresh(c: Container, p: Properties)
    requires FindEnvVar(c.env, JAVA_TOOL_OPTIONS).None?
    ensures ReadOptions(WriteOptions(c, p)).1 == p <==> Printable(p)
  {
    var written := WriteOptions(c, p);
    var value := Join(Words(p), ' ');
    assert written.env[|c.env|].name == JAVA_TOOL_OPTIONS;
    assert FindEnvVar(written.env, JAVA_TOOL_OPTIONS) == Some(|c.env|);
    SplitIsFree(value, ' ');
    ParseIsPrintable(Split(value, ' '));
    if Printable(p) {
      WordsAreWords(p);
      ParseOwnWords(p);
      if p == map[] {
        ParseKept([""]);
      } else {
        SplitJoin(Words(p), ' ');
      }
    }
  }

  function Pad(words: seq<string>): seq<string> {
    if words == [] then [""] else words
  }

  predicate IsLastKey(p: Properties, key: string) {
    forall k | k in p :: k == key || Less(k, key)
  }

  predicate IsLastOf(keys: set<string>, key: string) {
    key in keys && forall k | k in keys :: k == key || Less(k, key)
  }

  /** The property that is printed last loses the white space at its end. */
  function TrimLast(p: Properties): (q: Properties)
    ensures q.Keys == p.Keys
  {
    map k | k in p :: if IsLastKey(p, k) then TrimRight(p[k]) else p[k]
  }

  /** The kept words as they are printed in front of the properties. */
  function Head(keep: seq<string>, p: Properties): seq<string> {
    if p == map[] then TrimWords(keep) else TrimStart(keep)
  }

  lemma TrimRightRender(key: string, value: string)
    ensures TrimRight(Render(key, value)) == Render(key, TrimRight(value))
    ensures !Blank(Render(key, value)) && TrimLeft(Render(key, value)) == Render(key, value)
  {
    var front := "-D" + key + "=";
    assert Render(key, value) == front + value && front[|front| - 1] == '=';
    TrimRightAppend(front, value);
    TrimRightFacts(value);
    assert front + "" == front;
    assert Render(key, value)[0] == '-';
  }

  lemma LastKeyIsLast(keys: set<string>, s: seq<string>, p: Properties, i: nat)
    requires IsSortedSet(keys, s) && p.Keys == keys && i < |s|
    ensures IsLastKey(p, s[i]) <==> i == |s| - 1
  {
    var n := |s| - 1;
    assert s[n] in keys;
    if i == n {
      forall k | k in p ensures k == s[n] || Less(k, s[n]) {
        assert k in s;
      }
    } else if IsLastKey(p, s[i]) {
      LessIrreflexive(s[i]);
      LessTransitive(s[i], s[n], s[i]);
    }
  }

  lemma WordTrimLast(p: Properties, i: nat)
    requires i < |Words(p)|
    ensures |Words(TrimLast(p))| == |Words(p)| && !Blank(Words(p)[i])
    ensures Words(TrimLast(p))[i] == if i == |Words(p)| - 1 then TrimRight(Words(p)[i]) else Words(p)[i]
  {
    var keys := SortedKeys(p.Keys);
    assert keys[i] in p.Keys;
    TrimRightRender(keys[i], p[keys[i]]);
    LastKeyIsLast(p.Keys, keys, p, i);
  }

  /** The lists differ in their last word, which is trimmed in the second. */
  ghost predicate LastTrimmed(w: seq<string>, u: seq<string>) {
    && |u| == |w| > 0 && !Blank(w[|w| - 1])
    && forall i | 0 <= i < |w| :: u[i] == if i == |w| - 1 then TrimRight(w[i]) else w[i]
  }

  lemma WordsTrimLast(p: Properties)
    requires p != map[]
    ensures LastTrimmed(Words(p), Words(TrimLast(p)))
  {
    var w, u := Words(p), Words(TrimLast(p));
    WordTrimLast(p, |w| - 1);
    forall i | 0 <= i < |w| ensures u[i] == if i == |w| - 1 then TrimRight(w[i]) else w[i] {
      WordTrimLast(p, i);
    }
  }

  lemma TrimStartProperties(p: Properties)
    ensures TrimStart(Words(p)) == Words(p)
  {
    if p != map[] {
      var keys := SortedKeys(p.Keys);
      assert keys[0] in p;
      TrimRightRender(keys[0], p[keys[0]]);
    }
  }

  lemma TrimPadded(keep: seq<string>, words: seq<string>)
    ensures TrimWords(Pad(keep) + Pad(words)) == TrimWords(keep + words)
  {
    TrimStartAppend(Pad(keep), Pad(words));
    TrimStartAppend(keep, words);
    if words == [] {
      var r := TrimStart(keep);
      TrimEndAppend(r, "");
      assert r + [] == r && [""][1..] == [];
    }
  }

  /** What is printed: the kept words, trimmed, in front of the properties. */
  lemma PrintIsJoin(keep: seq<string>, p: Properties)
    ensures Print(Join(keep, ' '), p) == Join(Head(keep, p) + Words(TrimLast(p)), ' ')
  {
    var w := Words(p);
    var start := TrimStart(keep);
    JoinAppend(Pad(keep), Pad(w), ' ');
    TrimJoin(Pad(keep) + Pad(w));
    TrimPadded(keep, w);
    TrimStartAppend(keep, w);
    TrimStartProperties(p);
    assert TrimStart(keep + w) == start + w by {
      assert start == [] ==> start + w == w;
    }
    if p == map[] {
      assert start + w == start && TrimWords(keep) + Words(TrimLast(p)) == TrimWords(keep);
    } else {
      WordsTrimLast(p);
      TrimEndOfWords(start, w, Words(TrimLast(p)));
    }
  }

  lemma TrimEndOfWords(start: seq<string>, w: seq<string>, u: seq<string>)
    requires LastTrimmed(w, u)
    ensures TrimEnd(start + w) == start + u
  {
    var n := |w| - 1;
    LastSplits(w, u);
    TrimEndAppend(start + w[..n], w[n]);
    JoinThree(start, w[..n], [w[n]]);
    JoinThree(start, w[..n], [TrimRight(w[n])]);
  }

  lemma LastSplits(w: seq<string>, u: seq<string>)
    requires LastTrimmed(w, u)
    ensures w == w[..|w| - 1] + [w[|w| - 1]] && u == w[..|w| - 1] + [TrimRight(w[|w| - 1])]
  {
  }

  lemma JoinThree(a: seq<string>, b: seq<string>, c: seq<string>)
    ensures (a + b) + c == a + (b + c)
  {
  }

  /** What the parser makes of the printed text. The first kept word may have become a property
      by losing the white space before it; a printed property of the same key then overrides it. */
  function Reread(keep: seq<string>, p: Properties): Options {
    var head := Head(keep, p);
    if head == [] && p == map[] then Options([""], map[])
    else if head != [] && IsProperty(head[0]) then
      var kv := KeyValue(head[0]);
      Options(head[1..], map[kv.0 := kv.1] + TrimLast(p))
    else Options(head, TrimLast(p))
  }

  lemma PropertyBeyondEnd(word: string)
    ensures IsProperty(TrimRight(word)) <==> IsProperty(word)
  {
    TrimRightFacts(word);
    var r := TrimRight(word);
    assert word == r + word[|r|..];
    if IsProperty(word) {
      var kv := KeyValue(word);
      TrimRightRender(kv.0, kv.1);
      assert TrimRight(word)[2 + |kv.0|] == '=';
    }
  }

  /** Of the printed kept words only the first may be a property. */
  lemma HeadFacts(keep: seq<string>, p: Properties)
    requires KeptWords(keep)
    ensures var head := Head(keep, p);
      && FreeOf(head, ' ')
      && (head != [] ==> KeptWords(head[1..]) && !Blank(head[0]))
      && (head != [] && !IsProperty(head[0]) ==> KeptWords(head))
  {
    var start := TrimStart(keep);
    var shift := |keep| - |start|;
    TrimStartFacts(keep);
    assert forall i | 0 <= i < |keep| :: keep[i] in keep;
    if start != [] {
      TrimLeftFacts(keep[shift]);
    }
    assert FreeOf(start, ' ') && forall i | 0 < i < |start| :: start[i] == keep[shift + i];
    assert start != [] ==> KeptWords(start[1..]);
    if p == map[] {
      TrimmedHeadFacts(start);
    }
  }

  lemma TrimmedHeadFacts(start: seq<string>)
    requires FreeOf(start, ' ') && (start != [] ==> KeptWords(start[1..]) && !Blank(start[0]))
    ensures var head := TrimEnd(start);
      && FreeOf(head, ' ')
      && (head != [] ==> KeptWords(head[1..]) && !Blank(head[0]))
      && (head != [] ==> (IsProperty(head[0]) <==> IsProperty(start[0])))
  {
    var head := TrimEnd(start);
    TrimEndFacts(start);
    if head != [] {
      var n := |head| - 1;
      TrimRightFacts(start[n]);
      PropertyBeyondEnd(start[n]);
      assert n > 0 ==> start[n] in start[1..];
      forall i | 0 < i <= n ensures ' ' !in head[i] && !IsProperty(head[i]) {
        assert i < n ==> head[i] == start[i] && start[i] in start[1..];
      }
    }
  }

  lemma ParseKeptHead(head: seq<string>, words: seq<string>, p: Properties)
    requires KeptWords(head) && ParseWords(words) == Options([], p)
    ensures ParseWords(head + words) == Options(head, p)
  {
    ParseConcat(head, words);
    ParseKept(head);
    assert head + [] == head && map[] + p == p;
  }

  lemma ParsePropertyHead(word: string, rest: seq<string>, words: seq<string>, p: Properties)
    requires IsProperty(word) && KeptWords(rest) && ParseWords(words) == Options([], p)
    ensures ParseWords([word] + (rest + words)) == Options(rest, map[KeyValue(word).0 := KeyValue(word).1] + p)
  {
    ParseConcat([word], rest + words);
    ParseKeptHead(rest, words, p);
    ParseOneWord(word);
    assert [] + rest == rest;
  }

  lemma FirstThenRest(head: seq<string>, words: seq<string>)
    requires head != []
    ensures [head[0]] + (head[1..] + words) == head + words
  {
  }

  lemma ParseHead(head: seq<string>, words: seq<string>, p: Properties)
    requires head != [] ==> KeptWords(head[1..])
    requires head != [] && !IsProperty(head[0]) ==> KeptWords(head)
    requires ParseWords(words) == Options([], p)
    ensures ParseWords(head + words) ==
      if head != [] && IsProperty(head[0]) then Options(head[1..], map[KeyValue(head[0]).0 := KeyValue(head[0]).1] + p)
      else Options(head, p)
  {
    if head != [] && IsProperty(head[0]) {
      ParsePropertyHead(head[0], head[1..], words, p);
      FirstThenRest(head, words);
    } else {
      ParseKeptHead(head, words, p);
    }
  }

  lemma TrimRightAtEnd(value: string)
    ensures TrimRight(value) == value <==> NoSpaceAtEnd(value)
  {
    if value != "" {
      TrimRightFacts(value[..|value| - 1]);
    }
  }

  lemma TrimLastIsPrintable(p: Properties)
    requires Printable(p)
    ensures Printable(TrimLast(p))
    ensures Clean(p) ==> TrimLast(p) == p
  {
    forall k | k in p
      ensures ' ' !in TrimLast(p)[k]
      ensures NoSpaceAtEnd(p[k]) ==> TrimLast(p)[k] == p[k]
    {
      TrimRightFacts(p[k]);
    }
  }

  lemma PrintedIsFree(keep: seq<string>, p: Properties)
    requires KeptWords(keep) && Printable(p)
    ensures FreeOf(Head(keep, p) + Words(TrimLast(p)), ' ')
  {
    HeadFacts(keep, p);
    TrimLastIsPrintable(p);
    WordsAreWords(TrimLast(p));
  }

  /** The printed text read back, for any kept words and properties. */
  lemma ParsePrint(keep: seq<string>, p: Properties)
    requires KeptWords(keep) && Printable(p)
    ensures Parse(Print(Join(keep, ' '), p)) == Reread(keep, p)
    ensures KeptWords(Reread(keep, p).keep) && Printable(Reread(keep, p).properties)
  {
    var words := Head(keep, p) + Words(TrimLast(p));
    PrintIsJoin(keep, p);
    PrintedIsFree(keep, p);
    TrimLastIsPrintable(p);
    HeadFacts(keep, p);
    ParseOwnWords(TrimLast(p));
    ParseHead(Head(keep, p), Words(TrimLast(p)), TrimLast(p));
    if words == [] {
      ParseKept([""]);
    } else {
      SplitJoin(words, ' ');
    }
    SplitIsFree(Print(Join(keep, ' '), p), ' ');
    ParseIsPrintable(Split(Print(Join(keep, ' '), p), ' '));
  }

  // ----- when a second pass changes nothing -----

  /** The kept text in front of properties with these keys does not begin with a property once it is
      trimmed, or it is that one property, which then stands before all others in the order of keys. */
  predicate SettlesBefore(keep: seq<string>, keys: set<string>) {
    var head := if keys == {} then TrimWords(keep) else TrimStart(keep);
    head != [] && IsProperty(head[0]) ==>
      |head| == 1 && forall k | k in keys :: Less(KeyValue(head[0]).0, k)
  }

  predicate Settles(keep: seq<string>, p: Properties) {
    SettlesBefore(keep, p.Keys)
  }

  lemma TrimLastTwice(p: Properties)
    ensures TrimLast(TrimLast(p)) == TrimLast(p)
  {
    var q := TrimLast(p);
    forall k | k in p ensures TrimLast(q)[k] == q[k] {
      TrimRightFacts(p[k]);
      assert IsLastKey(q, k) <==> IsLastKey(p, k);
    }
  }

  lemma HeadTwice(keep: seq<string>, p: Properties)
    ensures Head(Head(keep, p), p) == Head(keep, p)
  {
    TrimStartFacts(keep);
    if p == map[] {
      TrimWordsTwice(TrimStart(keep));
    }
  }

  lemma TrimWordsTwice(start: seq<string>)
    requires start != [] ==> TrimLeft(start[0]) == start[0] && !Blank(start[0])
    ensures TrimWords(TrimEnd(start)) == TrimEnd(start)
  {
    var head := TrimEnd(start);
    TrimEndFacts(start);
    if head != [] {
      TrimRightFacts(start[0]);
      TrimmedStart(start[0], head[0]);
      assert head == [head[0]] + head[1..];
    }
  }

  lemma TrimmedStart(word: string, shorter: string)
    requires TrimLeft(word) == word && shorter <= word && shorter != ""
    ensures TrimLeft(shorter) == shorter && !Blank(shorter)
  {
    TrimLeftFacts(word);
    assert shorter[0] == word[0];
  }

  /** The words of a map to which a smaller key is added. */
  lemma WordsWithFirst(key: string, value: string, p: Properties)
    requires forall k | k in p :: Less(key, k)
    ensures Words(map[key := value] + p) == [Render(key, value)] + Words(p)
  {
    var q, keys := map[key := value] + p, SortedKeys(p.Keys);
    LessIrreflexive(key);
    assert forall i | 0 <= i < |keys| :: keys[i] in p.Keys;
    SortedSetUnique(q.Keys, SortedKeys(q.Keys), [key] + keys);
    RenderFirst(key, value, keys, p);
  }

  lemma RenderFirst(key: string, value: string, keys: seq<string>, p: Properties)
    requires key !in p && forall k | k in keys :: k in p
    ensures RenderKeys([key] + keys, map[key := value] + p) == [Render(key, value)] + RenderKeys(keys, p)
  {
    var words, before := RenderKeys([key] + keys, map[key := value] + p), RenderKeys(keys, p);
    forall i | 0 <= i < |words| ensures words[i] == ([Render(key, value)] + before)[i] {
      assert i > 0 ==> keys[i - 1] in keys;
    }
  }

  lemma SettlesAlone(word: string, p: Properties)
    requires IsProperty(word) && ' ' !in word && (p == map[] ==> TrimRight(word) == word)
    requires forall k | k in p :: Less(KeyValue(word).0, k)
    ensures var kv := KeyValue(word);
      Words(TrimLast(map[kv.0 := kv.1] + TrimLast(p))) == [word] + Words(TrimLast(p))
  {
    var kv := KeyValue(word);
    TrimLastTwice(p);
    FirstKeyTrims(kv.0, kv.1, TrimLast(p));
    WordsWithFirst(kv.0, kv.1, TrimLast(p));
  }

  /** A smaller key added to trimmed properties leaves nothing more to trim. */
  lemma FirstKeyTrims(key: string, value: string, p: Properties)
    requires TrimLast(p) == p && (p == map[] ==> TrimRight(Render(key, value)) == Render(key, value))
    requires forall k | k in p :: Less(key, k)
    ensures TrimLast(map[key := value] + p) == map[key := value] + p
  {
    var q := map[key := value] + p;
    forall k | k in q ensures TrimLast(q)[k] == q[k] {
      if k in p {
        assert IsLastKey(q, k) ==> IsLastKey(p, k);
        assert TrimLast(p)[k] == p[k];
      } else {
        FirstIsNotLast(key, q);
        if p == map[] {
          TrimmedValue(key, value);
        }
      }
    }
  }

  lemma FirstIsNotLast(key: string, q: Properties)
    requires forall k | k in q && k != key :: Less(key, k)
    ensures IsLastKey(q, key) ==> forall k | k in q :: k == key
  {
    if IsLastKey(q, key) {
      forall k | k in q ensures k == key {
        if k != key {
          LessTransitive(key, k, key);
          LessIrreflexive(key);
        }
      }
    }
  }

  lemma TrimmedValue(key: string, value: string)
    requires TrimRight(Render(key, value)) == Render(key, value)
    ensures TrimRight(value) == value
  {
    TrimRightRender(key, value);
    TrimRightFacts(value);
    assert |Render(key, TrimRight(value))| == |Render(key, value)|;
  }

  /** A settled text is printed again as it was. */
  lemma SettledPrint(keep: seq<string>, p: Properties)
    requires KeptWords(keep) && Settles(keep, p)
    ensures var o := Reread(keep, p); Print(Join(o.keep, ' '), o.properties) == Print(Join(keep, ' '), p)
  {
    var head, o := Head(keep, p), Reread(keep, p);
    PrintIsJoin(keep, p);
    PrintIsJoin(o.keep, o.properties);
    if head == [] && p == map[] {
      assert [""][1..] == [];
    } else if head != [] && IsProperty(head[0]) {
      SettledProperty(keep, p);
    } else {
      TrimLastTwice(p);
      HeadTwice(keep, p);
    }
  }

  lemma SettledProperty(keep: seq<string>, p: Properties)
    requires KeptWords(keep) && Settles(keep, p) && Head(keep, p) != [] && IsProperty(Head(keep, p)[0])
    ensures var o := Reread(keep, p);
      Head(o.keep, o.properties) + Words(TrimLast(o.properties)) == Head(keep, p) + Words(TrimLast(p))
  {
    var head, o := Head(keep, p), Reread(keep, p);
    assert head == [head[0]] && o.keep == [] && Head(o.keep, o.properties) == [];
    HeadIsWord(keep, p);
    SettlesAlone(head[0], p);
    NothingBefore(Words(TrimLast(o.properties)), head[0], Words(TrimLast(p)));
  }

  lemma HeadIsWord(keep: seq<string>, p: Properties)
    requires KeptWords(keep) && Head(keep, p) != []
    ensures ' ' !in Head(keep, p)[0]
    ensures p == map[] && |Head(keep, p)| == 1 ==> TrimRight(Head(keep, p)[0]) == Head(keep, p)[0]
  {
    HeadFacts(keep, p);
    TrimEndFacts(TrimStart(keep));
  }

  lemma NothingBefore(words: seq<string>, first: string, rest: seq<string>)
    requires words == [first] + rest
    ensures [] + words == [first] + rest
  {
  }

  /** The first printed word is a property, and not the only kept word or not the least key. */
  ghost predicate Disturbs(head: seq<string>, p: Properties) {
    && head != [] && IsProperty(head[0])
    && (|head| == 1 ==> exists k | k in p :: !Less(KeyValue(head[0]).0, k))
  }

  /** An unsettled text is printed differently, whatever values the properties get meanwhile. */
  lemma UnsettledPrint(keep: seq<string>, p: Properties, q: Properties)
    requires KeptWords(keep) && Printable(p) && Printable(q) && !Settles(keep, p)
    requires q.Keys == Reread(keep, p).properties.Keys
    ensures Print(Join(Reread(keep, p).keep, ' '), q) != Print(Join(keep, ' '), p)
  {
    var head := Head(keep, p);
    assert Disturbs(head, p) && KeptWords(head[1..]) by {
      HeadFacts(keep, p);
    }
    assert q.Keys == {KeyValue(head[0]).0} + p.Keys;
    DisturbedWords(head, p, q);
    PrintDiffers(keep, p, head[1..], q);
  }

  lemma PrintDiffers(keep: seq<string>, p: Properties, again: seq<string>, q: Properties)
    requires KeptWords(keep) && Printable(p) && KeptWords(again) && Printable(q)
    requires Head(keep, p) != [] && Words(TrimLast(q)) != []
    requires Head(keep, p) + Words(TrimLast(p)) != Head(again, q) + Words(TrimLast(q))
    ensures Print(Join(again, ' '), q) != Print(Join(keep, ' '), p)
  {
    PrintIsJoin(keep, p);
    PrintIsJoin(again, q);
    PrintedIsFree(keep, p);
    PrintedIsFree(again, q);
    JoinDiffers(Head(keep, p) + Words(TrimLast(p)), Head(again, q) + Words(TrimLast(q)));
  }

  lemma JoinDiffers(a: seq<string>, b: seq<string>)
    requires a != b && a != [] && b != [] && FreeOf(a, ' ') && FreeOf(b, ' ')
    ensures Join(a, ' ') != Join(b, ' ')
  {
    SplitJoin(a, ' ');
    SplitJoin(b, ' ');
  }

  lemma DisturbedWords(head: seq<string>, p: Properties, q: Properties)
    requires Disturbs(head, p) && KeptWords(head[1..]) && Printable(q)
    requires q.Keys == {KeyValue(head[0]).0} + p.Keys
    ensures head + Words(TrimLast(p)) != Head(head[1..], q) + Words(TrimLast(q))
    ensures Words(TrimLast(q)) != []
  {
    var key := KeyValue(head[0]).0;
    DisturbedSizes(key, p, q);
    if key !in p {
      DisturbedWord(head, p, q);
    }
    TrimStartFacts(head[1..]);
    DifferentWords(head, Words(TrimLast(p)), Head(head[1..], q), Words(TrimLast(q)));
  }

  lemma DisturbedSizes(key: string, p: Properties, q: Properties)
    requires q.Keys == {key} + p.Keys
    ensures |Words(TrimLast(q))| == |Words(TrimLast(p))| + if key in p then 0 else 1
    ensures q != map[] && Words(TrimLast(q)) != []
  {
    SortedSetSize(p.Keys, SortedKeys(p.Keys));
    SortedSetSize(q.Keys, SortedKeys(q.Keys));
    if key in p {
      assert q.Keys == p.Keys;
    }
  }

  /** The border between kept words and properties has moved to the left. */
  lemma DifferentWords(head: seq<string>, words: seq<string>, again: seq<string>, w: seq<string>)
    requires |again| < |head| && |w| <= |words| + 1
    requires |w| == |words| + 1 ==> w[0] != head[|head| - 1]
    ensures head + words != again + w
  {
    assert (head + words)[|head| - 1] == head[|head| - 1];
    assert |again| + |w| == |head| + |words| ==> (again + w)[|again|] == w[0];
  }

  lemma DisturbedWord(head: seq<string>, p: Properties, q: Properties)
    requires Disturbs(head, p) && KeptWords(head[1..]) && Printable(q) && q != map[]
    requires KeyValue(head[0]).0 !in p && q.Keys == {KeyValue(head[0]).0} + p.Keys
    ensures Words(TrimLast(q)) != [] && Words(TrimLast(q))[0] != head[|head| - 1]
  {
    var w := Words(TrimLast(q));
    TrimLastIsPrintable(q);
    WordsAreWords(TrimLast(q));
    assert w[0] in w;
    if |head| > 1 {
      assert head[|head| - 1] == head[1..][|head| - 2];
    } else if w[0] == head[0] {
      FirstWordIsLeast(q, head[0]);
      assert false;
    }
  }

  lemma FirstWordIsLeast(q: Properties, word: string)
    requires q != map[] && Printable(q) && IsProperty(word) && Words(TrimLast(q))[0] == word
    ensures forall k | k in q && k != KeyValue(word).0 :: Less(KeyValue(word).0, k)
  {
    var keys := SortedKeys(q.Keys);
    assert keys[0] in q;
    KeyValueRender(keys[0], TrimLast(q)[keys[0]]);
    forall k | k in q && k != keys[0] ensures Less(keys[0], k) {
      assert k in keys;
    }
  }

  /** Exactly when a second pass of the parser and the printer changes nothing. */
  lemma ReprintSettles(value: string)
    ensures var o := Parse(value); Reprint(Reprint(value)) == Reprint(value) <==> Settles(o.keep, o.properties)
  {
    var o := Parse(value);
    SplitIsFree(value, ' ');
    ParseIsPrintable(Split(value, ' '));
    ParsePrint(o.keep, o.properties);
    if Settles(o.keep, o.properties) {
      SettledPrint(o.keep, o.properties);
    } else {
      UnsettledPrint(o.keep, o.properties, Reread(o.keep, o.properties).properties);
    }
  }

  // ----- how many passes are enough -----

  /** After at most n further passes nothing changes any more. */
  ghost predicate SettlesWithin(value: string, n: nat)
    decreases n
  {
    Reprint(value) == value || (n > 0 && SettlesWithin(Reprint(value), n - 1))
  }

  lemma {:induction false} SettlesWithinMore(value: string, n: nat, m: nat)
    requires SettlesWithin(value, n) && n <= m
    ensures SettlesWithin(value, m)
    decreases n
  {
    if Reprint(value) != value {
      SettlesWithinMore(Reprint(value), n - 1, m - 1);
    }
  }

  /** An unsettled text loses a kept word: it becomes a property. */
  lemma UnsettledLosesWord(keep: seq<string>, p: Properties)
    requires !Settles(keep, p)
    ensures |Reread(keep, p).keep| < |keep|
  {
    TrimStartFacts(keep);
    TrimEndFacts(TrimStart(keep));
  }

  lemma {:induction false} PrintSettlesWithin(keep: seq<string>, p: Properties)
    requires KeptWords(keep) && Printable(p)
    ensures SettlesWithin(Print(Join(keep, ' '), p), |keep|)
    decreases |keep|
  {
    ReprintOfPrint(keep, p);
    if Settles(keep, p) {
      SettledPrint(keep, p);
    } else {
      var o := Reread(keep, p);
      UnsettledLosesWord(keep, p);
      PrintSettlesWithin(o.keep, o.properties);
      SettlesWithinMore(Print(Join(o.keep, ' '), o.properties), |o.keep|, |keep| - 1);
    }
  }

  lemma ReprintOfPrint(keep: seq<string>, p: Properties)
    requires KeptWords(keep) && Printable(p)
    ensures var o := Reread(keep, p);
      && Reprint(Print(Join(keep, ' '), p)) == Print(Join(o.keep, ' '), o.properties)
      && KeptWords(o.keep) && Printable(o.properties)
  {
    ParsePrint(keep, p);
  }

  /** Every option string settles: after the first pass there are at most as many passes that change
      anything as there are words that are no properties. */
  lemma ReprintSettlesEventually(value: string)
    ensures SettlesWithin(Reprint(value), |Parse(value).keep|)
  {
    var o := Parse(value);
    SplitIsFree(value, ' ');
    ParseIsPrintable(Split(value, ' '));
    PrintSettlesWithin(o.keep, o.properties);
  }

  // ----- clean option strings -----

  lemma CleanHead(keep: seq<string>, p: Properties)
    requires KeptWords(keep) && AllTrimmed(keep)
    ensures Settles(keep, p)
    ensures Reread(keep, p).keep == if Head(keep, p) == [] && p == map[] then [""] else Head(keep, p)
    ensures Clean(p) ==> Reread(keep, p).properties == p
  {
    var start := TrimStart(keep);
    TrimStartFacts(keep);
    if start != [] {
      var word := keep[|keep| - |start|];
      assert Trimmed(word) && TrimLeft(word) == word && !IsProperty(word);
      if p == map[] {
        TrimEndFacts(start);
        PropertyBeyondEnd(word);
      }
    }
    if Clean(p) {
      TrimLastIsPrintable(p);
    }
  }

  function NonEmpty(words: seq<string>): seq<string> {
    if words == [] then []
    else (if words[0] == "" then [] else [words[0]]) + NonEmpty(words[1..])
  }

  /** Reprinting a clean option string once is enough: the second pass changes nothing, no
      property is lost or altered, and the other non-empty words stay, in their order. */
  lemma CleanReprint(value: string)
    requires CleanValue(value)
    ensures Reprint(Reprint(value)) == Reprint(value)
    ensures Parse(Reprint(value)).properties == Parse(value).properties
    ensures NonEmpty(Parse(Reprint(value)).keep) == NonEmpty(NonProperties(Split(value, ' ')))
  {
    var o := Parse(value);
    assert KeptWords(o.keep) && AllTrimmed(o.keep) && Clean(o.properties) by {
      SplitIsFree(value, ' ');
      ParseIsPrintable(Split(value, ' '));
    }
    KeptInOrder(Split(value, ' '));
    ParsePrint(o.keep, o.properties);
    CleanHead(o.keep, o.properties);
    ReprintSettles(value);
    CleanWordsStay(o.keep, o.properties);
  }

  lemma CleanWordsStay(keep: seq<string>, p: Properties)
    requires KeptWords(keep) && AllTrimmed(keep)
    ensures NonEmpty(Reread(keep, p).keep) == NonEmpty(keep)
  {
    CleanHead(keep, p);
    NonEmptyTrimStart(keep);
    NonEmptyTrimEnd(TrimStart(keep));
    assert [""][1..] == [];
  }

  lemma {:induction false} NonEmptyAppend(a: seq<string>, b: seq<string>)
    ensures NonEmpty(a + b) == NonEmpty(a) + NonEmpty(b)
  {
    if a == [] {
      assert a + b == b;
    } else {
      assert (a + b)[1..] == a[1..] + b;
      NonEmptyAppend(a[1..], b);
    }
  }

  lemma {:induction false} NonEmptyTrimStart(a: seq<string>)
    requires AllTrimmed(a)
    ensures NonEmpty(TrimStart(a)) == NonEmpty(a) && AllTrimmed(TrimStart(a))
  {
    if a != [] {
      assert a[0] in a;
      if Blank(a[0]) {
        NonEmptyTrimStart(a[1..]);
      } else {
        assert TrimStart(a) == a;
      }
    }
  }

  lemma {:induction false} NonEmptyTrimEnd(a: seq<string>)
    requires AllTrimmed(a)
    ensures NonEmpty(TrimEnd(a)) == NonEmpty(a)
    ensures TrimEnd(a) != [] ==> TrimEnd(a)[0] == a[0]
  {
    if a != [] {
      var n := |a| - 1;
      assert a[n] in a && a == a[..n] + [a[n]];
      if Blank(a[n]) {
        NonEmptyTrimEnd(a[..n]);
        NonEmptyAppend(a[..n], [""]);
        assert NonEmpty([""]) == [];
      } else {
        assert TrimEnd(a) == a;
      }
    }
  }
}
