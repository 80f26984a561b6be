/** The JAVA_TOOL_OPTIONS parser and printer: `-Dkey=value` words become a property map and
    are printed back, in key order, behind the words that are not properties. */
module SpringProperties {
  import opened Wrappers
  import opened Text
  import opened Sorting
  import opened Core

  const JAVA_TOOL_OPTIONS := "JAVA_TOOL_OPTIONS"

  type Properties = map<string, string>

  datatype Options = Options(keep: seq<string>, properties: Properties)

  // ----- the parser -----

  predicate IsProperty(word: string) {
    "-D" <= word && '=' in word
  }

  /** strings.SplitN(s, "=", 2) of a string that holds an equals sign. */
  function Cut(s: string): (kv: (string, string))
    requires '=' in s
    ensures s == kv.0 + "=" + kv.1 && '=' !in kv.0
  {
    if s[0] == '=' then ("", s[1..])
    else
      var rest := Cut(s[1..]);
      ([s[0]] + rest.0, rest.1)
  }

  function KeyValue(word: string): (kv: (string, string))
    requires IsProperty(word)
    ensures word == Render(kv.0, kv.1) && '=' !in kv.0
  {
    assert word == word[..2] + word[2..] && word[..2] == "-D";
    Cut(word[2..])
  }

  function TakeWord(o: Options, word: string): Options {
    if IsProperty(word) then
      var kv := KeyValue(word);
      o.(properties := o.properties[kv.0 := kv.1])
    else o.(keep := o.keep + [word])
  }

  /** Words from left to right: a later property overrides an earlier one. */
  function ParseWords(words: seq<string>): Options {
    if words == [] then Options([], map[])
    else TakeWord(ParseWords(words[..|words| - 1]), words[|words| - 1])
  }

  function Parse(value: string): Options {
    ParseWords(Split(value, ' '))
  }

  // ----- the printer -----

  function Render(key: string, value: string): string {
    "-D" + key + "=" + value
  }

  function RenderKeys(keys: seq<string>, p: Properties): (words: seq<string>)
    requires forall k | k in keys :: k in p
    ensures |words| == |keys|
    ensures forall i | 0 <= i < |keys| :: words[i] == Render(keys[i], p[keys[i]])
  {
    if keys == [] then []
    else
      var n := |keys| - 1;
      assert forall k | k in keys[..n] :: k in keys;
      RenderKeys(keys[..n], p) + [Render(keys[n], p[keys[n]])]
  }

  ghost function Words(p: Properties): (words: seq<string>)
    ensures |words| == 0 <==> p == map[]
  {
    var keys := SortedKeys(p.Keys);
    assert keys != [] ==> keys[0] in p.Keys;
    RenderKeys(keys, p)
  }

  ghost function Print(kept: string, p: Properties): string {
    TrimSpace(kept + " " + Join(Words(p), ' '))
  }

  /** One pass of the parser and the printer over an option string. */
  ghost function Reprint(value: string): string {
    var o := Parse(value);
    Print(Join(o.keep, ' '), o.properties)
  }

  // ----- the option string inside a container -----

  function FindEnvVar(env: seq<EnvVar>, name: string): (r: Option<nat>)
    ensures r.None? <==> forall i | 0 <= i < |env| :: env[i].name != name
    ensures r.Some? ==> r.value < |env| && env[r.value].name == name
                        && forall i | 0 <= i < r.value :: env[i].name != name
  {
    if env == [] then None
    else if env[0].name == name then Some(0)
    else match FindEnvVar(env[1..], name)
      case None => None
      case Some(i) =>
        assert forall j | 1 <= j < |env| :: env[j] == env[1..][j - 1];
        Some(i + 1)
  }

  function SetOptions(c: Container, at: nat, value: string): Container
    requires at < |c.env|
  {
    c.(env := c.env[at := c.env[at].(value := value)])
  }

  /** FromContainer: the container without its properties, and the properties. */
  function ReadOptions(c: Container): (Container, Properties) {
    match FindEnvVar(c.env, JAVA_TOOL_OPTIONS)
    case None => (c, map[])
    case Some(i) =>
      var o := Parse(c.env[i].value);
      (SetOptions(c, i, Join(o.keep, ' ')), o.properties)
  }

  /** ToContainer: the container with the properties appended to its options. */
  ghost function WriteOptions(c: Container, p: Properties): Container {
    match FindEnvVar(c.env, JAVA_TOOL_OPTIONS)
    case None => c.(env := c.env + [EnvVar(JAVA_TOOL_OPTIONS, Join(Words(p), ' '))])
    case Some(i) => SetOptions(c, i, Print(c.env[i].value, p))
  }

  // ----- what is read and written -----

  /** A property is a word "-Dkey=value", split at its first equals sign. */
  lemma WordMeans(word: string)
    ensures IsProperty(word) <==> exists key, value :: '=' !in key && word == "-D" + key + "=" + value
    ensures forall key, value | '=' !in key && word == "-D" + key + "=" + value ::
      IsProperty(word) && KeyValue(word) == (key, value)
  {
    if IsProperty(word) {
      var kv := KeyValue(word);
      assert word == "-D" + kv.0 + "=" + kv.1;
    }
    forall key, value | '=' !in key && word == "-D" + key + "=" + value
      ensures IsProperty(word) && KeyValue(word) == (key, value)
    {
      KeyValueRender(key, value);
      assert word == Render(key, value);
    }
  }

  /** The printed words: each property once, in the string order of the keys. */
  lemma WordsMean(p: Properties) returns (keys: seq<string>)
    ensures InStringOrder(keys) && forall k :: k in keys <==> k in p
    ensures |Words(p)| == |keys|
    ensures forall i | 0 <= i < |keys| :: Words(p)[i] == "-D" + keys[i] + "=" + p[keys[i]]
  {
    keys := SortedKeys(p.Keys);
    SortedIsInStringOrder(p.Keys, keys);
  }

  /** The first variable of that name, if there is one. */
  predicate IsFirstVariable(env: seq<EnvVar>, name: string, at: nat) {
    at < |env| && env[at].name == name && forall i | 0 <= i < at :: env[i].name != name
  }

  /** Reading takes the properties out of the first JAVA_TOOL_OPTIONS; the other words stay, in order. */
  lemma ReadMeans(c: Container, at: nat)
    ensures (forall i | 0 <= i < |c.env| :: c.env[i].name != "JAVA_TOOL_OPTIONS") ==> ReadOptions(c) == (c, map[])
    ensures IsFirstVariable(c.env, "JAVA_TOOL_OPTIONS", at) ==>
      var words := Split(c.env[at].value, ' ');
      var kept := EnvVar("JAVA_TOOL_OPTIONS", Join(NonProperties(words), ' '));
      ReadOptions(c) == (c.(env := c.env[at := kept]), ParseWords(words).properties)
  {
    if IsFirstVariable(c.env, "JAVA_TOOL_OPTIONS", at) {
      KeptInOrder(Split(c.env[at].value, ' '));
    }
  }

  /** Writing appends the properties to it, or adds it as the last variable; no other variable changes. */
  lemma WriteMeans(c: Container, p: Properties, at: nat)
    ensures (forall i | 0 <= i < |c.env| :: c.env[i].name != "JAVA_TOOL_OPTIONS") ==>
      WriteOptions(c, p) == c.(env := c.env + [EnvVar("JAVA_TOOL_OPTIONS", Join(Words(p), ' '))])
    ensures IsFirstVariable(c.env, "JAVA_TOOL_OPTIONS", at) ==>
      var text := TrimSpace(c.env[at].value + " " + Join(Words(p), ' '));
      WriteOptions(c, p) == c.(env := c.env[at := EnvVar("JAVA_TOOL_OPTIONS", text)])
  {
  }

  // ----- which maps and strings are faithful -----

  /** Keys hold no space and no equals sign, values hold no space. */
  ghost predicate Printable(p: Properties) {
    forall k | k in p :: ' ' !in k && '=' !in k && ' ' !in p[k]
  }

  /** Printable, and no value ends in white space of another kind. */
  ghost predicate Clean(p: Properties) {
    Printable(p) && forall k | k in p :: NoSpaceAtEnd(p[k])
  }

  predicate NoSpaceAtEnd(s: string) {
    s != "" ==> !IsSpace(s[|s| - 1])
  }

  /** No word of the option string begins or ends in white space other than ' '. In particular
      any string whose only white space is ' ' qualifies. */
  predicate CleanValue(value: string) {
    AllTrimmed(Split(value, ' '))
  }

  lemma {:induction false} OnlySpacesIsClean(value: string)
    requires forall i | 0 <= i < |value| :: IsSpace(value[i]) ==> value[i] == ' '
    ensures CleanValue(value)
  {
    SplitIsFree(value, ' ');
    forall p | p in Split(value, ' ') ensures Trimmed(p) {
      forall c | c in p ensures c in value {
        SplitChars(value, p, c);
      }
      assert p != "" ==> p[0] in p && p[|p| - 1] in p;
    }
  }

  lemma {:induction false} SplitChars(s: string, p: string, c: char)
    requires p in Split(s, ' ') && c in p
    ensures c in s
  {
    if s != "" {
      var rest := Split(s[1..], ' ');
      if p in rest {
        SplitChars(s[1..], p, c);
      } else if s[0] != ' ' {
        assert p == [s[0]] + rest[0] by {
          assert forall q | q in rest[1..] :: q in rest;
        }
        if c != s[0] {
          assert c in rest[0];
          SplitChars(s[1..], rest[0], c);
        }
      }
    }
  }

  // ----- parsing what was printed -----

  function Merge(a: Options, b: Options): Options {
    Options(a.keep + b.keep, a.properties + b.properties)
  }

  lemma TakeWordMerge(a: Options, b: Options, word: string)
    ensures TakeWord(Merge(a, b), word) == Merge(a, TakeWord(b, word))
  {
  }

  lemma MergeNothing(o: Options)
    ensures Merge(o, Options([], map[])) == o
  {
  }

  lemma ParseLastWord(words: seq<string>)
    requires words != []
    ensures ParseWords(words) == TakeWord(ParseWords(words[..|words| - 1]), words[|words| - 1])
  {
  }

  lemma {:induction false} ParseConcat(a: seq<string>, b: seq<string>)
    ensures ParseWords(a + b) == Merge(ParseWords(a), ParseWords(b))
  {
    if b == [] {
      assert a + b == a;
      MergeNothing(ParseWords(a));
    } else {
      var n := |b| - 1;
      ParseConcat(a, b[..n]);
      assert (a + b)[..|a + b| - 1] == a + b[..n];
      ParseLastWord(a + b);
      ParseLastWord(b);
      TakeWordMerge(ParseWords(a), ParseWords(b[..n]), b[n]);
    }
  }

  lemma {:induction false} ParseKept(words: seq<string>)
    requires forall w | w in words :: !IsProperty(w)
    ensures ParseWords(words) == Options(words, map[])
  {
    if words != [] {
      var n := |words| - 1;
      assert words == words[..n] + [words[n]];
      ParseKept(words[..n]);
    }
  }

  lemma {:induction false} CutRender(key: string, value: string)
    requires '=' !in key
    ensures '=' in key + "=" + value && Cut(key + "=" + value) == (key, value)
  {
    var s := key + "=" + value;
    assert s[|key|] == '=';
    if key != "" {
      CutRender(key[1..], value);
      assert s[1..] == key[1..] + "=" + value;
      assert key == [key[0]] + key[1..];
    } else {
      assert s[1..] == value;
    }
  }

  lemma KeyValueRender(key: string, value: string)
    requires '=' !in key
    ensures IsProperty(Render(key, value)) && KeyValue(Render(key, value)) == (key, value)
  {
    var w := Render(key, value);
    CutRender(key, value);
    assert w[2..] == key + "=" + value;
    assert w[2 + |key|] == '=';
  }

  lemma {:induction false} ParseRendered(keys: seq<string>, p: Properties)
    requires forall k | k in keys :: k in p && '=' !in k
    ensures ParseWords(RenderKeys(keys, p)).keep == []
    ensures forall k :: k in ParseWords(RenderKeys(keys, p)).properties <==> k in keys
    ensures forall k | k in keys :: ParseWords(RenderKeys(keys, p)).properties[k] == p[k]
  {
    if keys != [] {
      var n := |keys| - 1;
      assert keys == keys[..n] + [keys[n]];
      ParseRendered(keys[..n], p);
      KeyValueRender(keys[n], p[keys[n]]);
      var words := RenderKeys(keys, p);
      assert words[..n] == RenderKeys(keys[..n], p);
    }
  }

  lemma ParseOwnWords(p: Properties)
    requires forall k | k in p :: '=' !in k
    ensures ParseWords(Words(p)) == Options([], p)
  {
    ParseRendered(SortedKeys(p.Keys), p);
  }

  lemma RenderIsWord(key: string, value: string)
    requires ' ' !in key && '=' !in key && ' ' !in value
    ensures ' ' !in Render(key, value) && Render(key, value) != "" && IsProperty(Render(key, value))
    ensures NoSpaceAtEnd(value) ==> Trimmed(Render(key, value))
  {
    KeyValueRender(key, value);
  }

  lemma WordsAreWords(p: Properties)
    requires Printable(p)
    ensures FreeOf(Words(p), ' ')
    ensures forall w | w in Words(p) :: w != "" && IsProperty(w)
    ensures Clean(p) ==> AllTrimmed(Words(p))
  {
    var keys := SortedKeys(p.Keys);
    var words := Words(p);
    forall w | w in words
      ensures ' ' !in w && w != "" && IsProperty(w)
      ensures Clean(p) ==> Trimmed(w)
    {
      var i :| 0 <= i < |words| && words[i] == w;
      assert keys[i] in p;
      RenderIsWord(keys[i], p[keys[i]]);
    }
    assert forall i | 0 <= i < |words| :: words[i] in words;
  }

  // ----- what the parser yields -----

  /** Words as the parser keeps them: no spaces, and no properties. */
  ghost predicate KeptWords(keep: seq<string>) {
    forall w | w in keep :: ' ' !in w && !IsProperty(w)
  }

  lemma TakeWordIsPrintable(o: Options, word: string)
    requires ' ' !in word && Printable(o.properties)
    ensures Printable(TakeWord(o, word).properties)
    ensures KeptWords(o.keep) ==> KeptWords(TakeWord(o, word).keep)
    ensures Trimmed(word) && Clean(o.properties) ==> Clean(TakeWord(o, word).properties)
    ensures Trimmed(word) && AllTrimmed(o.keep) ==> AllTrimmed(TakeWord(o, word).keep)
  {
    if IsProperty(word) {
      var kv := KeyValue(word);
      RenderParts(kv.0, kv.1);
    }
  }

  /** Parsed keys never hold '=' or ' ', parsed values never hold ' ', and kept words are no properties. */
  lemma {:induction false} ParseIsPrintable(words: seq<string>)
    requires FreeOf(words, ' ')
    ensures Printable(ParseWords(words).properties) && KeptWords(ParseWords(words).keep)
    ensures AllTrimmed(words) ==> Clean(ParseWords(words).properties) && AllTrimmed(ParseWords(words).keep)
  {
    if words != [] {
      var n := |words| - 1;
      assert words == words[..n] + [words[n]];
      ParseIsPrintable(words[..n]);
      TakeWordIsPrintable(ParseWords(words[..n]), words[n]);
    }
  }

  lemma RenderParts(key: string, value: string)
    requires ' ' !in Render(key, value)
    ensures ' ' !in key && ' ' !in value
    ensures value != "" ==> value[|value| - 1] == Render(key, value)[|Render(key, value)| - 1]
  {
    var w := Render(key, value);
    forall i | 0 <= i < |key| ensures key[i] != ' ' { assert w[2 + i] == key[i]; }
    forall i | 0 <= i < |value| ensures value[i] != ' ' { assert w[3 + |key| + i] == value[i]; }
  }

  /** A property is present exactly when some word sets it, and the last such word wins. */
  lemma {:induction false} LastWordWins(words: seq<string>, key: string)
    ensures key in ParseWords(words).properties <==>
            exists w :: w in words && IsProperty(w) && KeyValue(w).0 == key
    ensures forall i | 0 <= i < |words| && IsProperty(words[i]) && KeyValue(words[i]).0 == key
                       && (forall j | i < j < |words| :: IsProperty(words[j]) ==> KeyValue(words[j]).0 != key)
              :: ParseWords(words).properties[key] == KeyValue(words[i]).1
  {
    if words != [] {
      var n := |words| - 1;
      assert words == words[..n] + [words[n]];
      LastWordWins(words[..n], key);
    }
  }

  /** Kept words are the words that are no properties, in their order. */
  function NonProperties(words: seq<string>): seq<string> {
    if words == [] then []
    else (if IsProperty(words[0]) then [] else [words[0]]) + NonProperties(words[1..])
  }

  lemma ParseOneWord(word: string)
    ensures ParseWords([word]) ==
      if IsProperty(word) then Options([], map[KeyValue(word).0 := KeyValue(word).1]) else Options([word], map[])
  {
    assert [word][..0] == [];
    ParseLastWord([word]);
  }

  lemma {:induction false} KeptInOrder(words: seq<string>)
    ensures ParseWords(words).keep == NonProperties(words)
  {
    if words != [] {
      KeptInOrder(words[1..]);
      assert words == [words[0]] + words[1..];
      ParseConcat([words[0]], words[1..]);
      ParseOneWord(words[0]);
    }
  }

  // ----- the code: a map that is filled from and printed into a container -----

  function WithDefault(p: Properties, key: string, defaultValue: string): Properties {
    if key in p then p else p[key := defaultValue]
  }

  /** findEnvVar: the position of the first variable of that name. */
  method SearchEnvVar(c: Container, name: string) returns (at: Option<nat>)
    ensures at == FindEnvVar(c.env, name)
  {
    for i := 0 to |c.env|
      invariant forall j | 0 <= j < i :: c.env[j].name != name
    {
      if c.env[i].name == name {
        return Some(i);
      }
    }
    return None;
  }

  lemma ParseNextWord(words: seq<string>, n: nat)
    requires n < |words|
    ensures ParseWords(words[..n + 1]) == TakeWord(ParseWords(words[..n]), words[n])
  {
    assert words[..n + 1][..n] == words[..n];
  }

  class SpringApplicationProperties {
    var entries: Properties

    constructor ()
      ensures entries == map[]
    {
      entries := map[];
    }

    method Default(key: string, defaultValue: string) returns (value: string)
      modifies this
      ensures entries == WithDefault(old(entries), key, defaultValue)
      ensures value == entries[key]
    {
      if key !in entries {
        entries := entries[key := defaultValue];
      }
      value := entries[key];
    }

    /** Container i of a slice is read and loses its properties. */
    method FromContainer(slice: array<Container>, i: nat)
      requires i < slice.Length
      modifies this, slice
      ensures entries == old(entries) + ReadOptions(old(slice[i])).1
      ensures slice[..] == old(slice[..])[i := ReadOptions(old(slice[i])).0]
    {
      var c := slice[i];
      var javaOpts := SearchEnvVar(c, JAVA_TOOL_OPTIONS);
      if javaOpts.None? {
        return;
      }
      var at := javaOpts.value;
      var keep := TakeProperties(Split(c.env[at].value, ' '));
      slice[i] := SetOptions(c, at, Join(keep, ' '));
    }

    /** The loop of FromContainer: properties go to the map, the other words are kept. */
    method TakeProperties(words: seq<string>) returns (keep: seq<string>)
      modifies this
      ensures keep == ParseWords(words).keep
      ensures entries == old(entries) + ParseWords(words).properties
    {
      keep := [];
      for n := 0 to |words|
        invariant keep == ParseWords(words[..n]).keep
        invariant entries == old(entries) + ParseWords(words[..n]).properties
      {
        ParseNextWord(words, n);
        if !("-D" <= words[n]) || '=' !in words[n] {
          keep := keep + [words[n]];
        } else {
          var kv := KeyValue(words[n]);
          entries := entries[kv.0 := kv.1];
        }
      }
      assert words[..|words|] == words;
    }

    /** The properties are printed, in key order, into container i of a slice. */
    method ToContainer(slice: array<Container>, i: nat)
      requires i < slice.Length
      modifies slice
      ensures slice[..] == old(slice[..])[i := WriteOptions(old(slice[i]), entries)]
    {
      var propertyKeys := SortStrings(entries.Keys);
      var properties: seq<string> := [];
      for n := 0 to |propertyKeys|
        invariant forall k | k in propertyKeys :: k in entries
        invariant properties == RenderKeys(propertyKeys[..n], entries)
      {
        assert propertyKeys[..n + 1][..n] == propertyKeys[..n];
        properties := properties + [Render(propertyKeys[n], entries[propertyKeys[n]])];
      }
      assert propertyKeys[..|propertyKeys|] == propertyKeys;
      assert properties == Words(entries);
      var c := slice[i];
      var javaOpts := SearchEnvVar(c, JAVA_TOOL_OPTIONS);
      if javaOpts.Some? {
        var at := javaOpts.value;
        slice[i] := SetOptions(c, at, TrimSpace(c.env[at].value + " " + Join(properties, ' ')));
      } else {
        slice[i] := c.(env := c.env + [EnvVar(JAVA_TOOL_OPTIONS, Join(properties, ' '))]);
      }
    }
  }
}
