/**
 * redis.conf: what pkg/resources/configmaps/configmap.go prints, and how
 * pkg/controller/manager/ensurer.go finds out whether it still says the same.
 */
module RedisConf {
  import opened Basics
  import opened Text
  import Sorting

  type Config = map<string, string>

  // ---------- the order of sort.Strings ----------

  predicate LessText(a: string, b: string) {
    if b == "" then false
    else if a == "" then true
    else if a[0] != b[0] then a[0] < b[0]
    else LessText(a[1..], b[1..])
  }

  lemma {:induction false} LessTextAsymmetric(a: string, b: string)
    requires LessText(a, b)
    ensures !LessText(b, a)
  {
    if a != "" && a[0] == b[0] {
      LessTextAsymmetric(a[1..], b[1..]);
    }
  }

  lemma {:induction false} LessTextTransitive(a: string, b: string, c: string)
    requires !LessText(a, b) && !LessText(b, c)
    ensures !LessText(a, c)
  {
    if a != "" && b != "" && c != "" && a[0] == b[0] && b[0] == c[0] {
      LessTextTransitive(a[1..], b[1..], c[1..]);
    }
  }

  lemma {:induction false} LessTextTotal(a: string, b: string)
    ensures a == b || LessText(a, b) || LessText(b, a)
  {
    if a != "" && b != "" && a[0] == b[0] {
      LessTextTotal(a[1..], b[1..]);
      assert a == [a[0]] + a[1..] && b == [b[0]] + b[1..];
    }
  }

  lemma LessTextIsOrder()
    ensures Sorting.StrictWeakOrder(LessText)
  {
    forall a, b | LessText(a, b) ensures !LessText(b, a) {
      LessTextAsymmetric(a, b);
    }
    forall a, b, c | !LessText(a, b) && !LessText(b, c) ensures !LessText(a, c) {
      LessTextTransitive(a, b, c);
    }
  }

  // ---------- printing ----------

  function Line(k: string, v: string): string {
    k + " " + v
  }

  /** The lines for the given keys; a key without a value has none. */
  function Lines(config: Config, keys: seq<string>): seq<string>
    requires forall k :: k in keys ==> k in config
  {
    if keys == [] then []
    else
      var m := |keys| - 1;
      Lines(config, keys[..m]) + if config[keys[m]] == "" then [] else [Line(keys[m], config[keys[m]])]
  }

  lemma LinesOfOneMore(config: Config, keys: seq<string>, k: string)
    requires k in config && forall l :: l in keys ==> l in config
    ensures config[k] == "" ==> Lines(config, keys + [k]) == Lines(config, keys)
    ensures config[k] != "" ==> Lines(config, keys + [k]) == Lines(config, keys) + [Line(k, config[k])]
  {
    assert (keys + [k])[..|keys|] == keys;
  }

  function Printed(lines: seq<string>): string {
    if lines == [] then "" else Printed(lines[..|lines| - 1]) + lines[|lines| - 1] + "\n"
  }

  ghost predicate ListsKeys(keys: seq<string>, config: Config) {
    NoDup(keys) && forall k :: k in keys <==> k in config
  }

  method SortedKeys(config: Config) returns (keys: seq<string>)
    ensures ListsKeys(keys, config) && Sorting.SortedBy(LessText, keys)
  {
    var unsorted := KeysInAnyOrder(config);
    LessTextIsOrder();
    keys := Sorting.SortByFunc(unsorted, LessText);
    SameKeys(unsorted, keys, config);
  }

  lemma SameKeys(keys: seq<string>, keys': seq<string>, config: Config)
    requires ListsKeys(keys, config) && multiset(keys') == multiset(keys)
    ensures ListsKeys(keys', config)
  {
    Sorting.PermutationKeepsMembers(keys, keys');
    forall k ensures k in keys' <==> k in config {
      assert k in ToSet(keys') <==> k in ToSet(keys);
    }
  }

  /** generateRedisConfContent: the keys in order. */
  method GenerateRedisConfContent(config: Config) returns (content: string)
    ensures exists keys :: PrintedFrom(config, keys, content)
  {
    var keys := SortedKeys(config);
    content := PrintKeys(config, keys);
    assert PrintedFrom(config, keys, content);
  }

  /** content has the lines for all keys of config, in order. */
  ghost predicate PrintedFrom(config: Config, keys: seq<string>, content: string) {
    ListsKeys(keys, config) && Sorting.SortedBy(LessText, keys) && content == Printed(Lines(config, keys))
  }

  method PrintKeys(config: Config, keys: seq<string>) returns (content: string)
    requires forall k :: k in keys ==> k in config
    ensures content == Printed(Lines(config, keys))
  {
    content := "";
    for i := 0 to |keys|
      invariant content == Printed(Lines(config, keys[..i]))
    {
      assert keys[..i + 1] == keys[..i] + [keys[i]];
      content := AppendLine(config, keys[..i], keys[i], content);
    }
    assert keys[..|keys|] == keys;
  }

  method AppendLine(config: Config, ghost keys: seq<string>, k: string, before: string) returns (content: string)
    requires k in config && (forall l :: l in keys ==> l in config) && before == Printed(Lines(config, keys))
    ensures content == Printed(Lines(config, keys + [k]))
  {
    LinesOfOneMore(config, keys, k);
    content := before;
    var v := config[k];
    if |v| != 0 {
      PrintedOneMore(Lines(config, keys), Line(k, v));
      content := content + Line(k, v);
      content := content + "\n";
    }
  }

  lemma PrintedOneMore(lines: seq<string>, line: string)
    ensures Printed(lines + [line]) == Printed(lines) + line + "\n"
  {
    assert (lines + [line])[..|lines|] == lines;
  }

  method KeysInAnyOrder(config: Config) returns (keys: seq<string>)
    ensures ListsKeys(keys, config)
  {
    keys := [];
    var rest := config.Keys;
    while rest != {}
      invariant rest <= config.Keys && NoDup(keys)
      invariant forall k :: k in keys <==> k in config && k !in rest
      decreases rest
    {
      var k :| k in rest;
      keys, rest := keys + [k], rest - {k};
    }
  }

  /** What is printed does not depend on the order in which the map hands out its keys. */
  lemma PrintedOnce(config: Config, keys: seq<string>, content: string, keys': seq<string>, content': string)
    requires PrintedFrom(config, keys, content) && PrintedFrom(config, keys', content')
    ensures content == content'
  {
    LessTextIsOrder();
    forall a, b ensures a == b || LessText(a, b) || LessText(b, a) {
      LessTextTotal(a, b);
    }
    SameMembersSameBag(keys, keys');
    Sorting.SortedListIsUnique(LessText, keys, keys');
  }

  lemma {:induction false} SameMembersSameBag(s: seq<string>, t: seq<string>)
    requires NoDup(s) && NoDup(t) && forall x :: x in s <==> x in t
    ensures multiset(s) == multiset(t)
  {
    forall x ensures multiset(s)[x] == multiset(t)[x] {
      Sorting.NoDupMultiplicity(s, x);
      Sorting.NoDupMultiplicity(t, x);
      assert x in s <==> x in multiset(s);
      assert x in t <==> x in multiset(t);
    }
  }

  // ---------- comparing ----------

  /** A line that has a key and a value names an entry of config. */
  predicate Matches(line: string, config: Config) {
    var parts := SplitFirst(TrimSuffix(line, ' '), ' ');
    |parts| == 2 ==> parts[0] in config && config[parts[0]] == parts[1]
  }

  ghost predicate Same(content: string, config: Config) {
    var lines := Split(TrimSuffix(content, '\n'), '\n');
    |lines| == |config| && AllMatch(lines, config)
  }

  /** isRedisConfChanged */
  method IsRedisConfChanged(confInCm: string, currentConf: Config) returns (changed: bool)
    ensures changed <==> !Same(confInCm, currentConf)
  {
    var lines := Split(TrimSuffix(confInCm, '\n'), '\n');
    if |lines| != |currentConf| {
      return true;
    }
    for i := 0 to |lines|
      invariant forall j :: 0 <= j < i ==> Matches(lines[j], currentConf)
    {
      var confLine := SplitFirst(TrimSuffix(lines[i], ' '), ' ');
      if |confLine| == 2 {
        if confLine[0] !in currentConf {
          return true;
        } else if currentConf[confLine[0]] != confLine[1] {
          return true;
        }
      }
    }
    return false;
  }

  // ---------- the two together ----------

  /** Keys without spaces and line breaks, values without line breaks. */
  ghost predicate Plain(config: Config) {
    forall k :: k in config ==> ' ' !in k && '\n' !in k && '\n' !in config[k]
  }

  /** What is left of a configuration when it is printed and read again. */
  function Normal(config: Config): Config {
    map k | k in config && config[k] != "" :: TrimSuffix(config[k], ' ')
  }

  /** Printed from the front: the first line, a line break, and the others. */
  lemma {:induction false} PrintedFront(lines: seq<string>)
    requires lines != []
    ensures Printed(lines) == (lines[0] + "\n") + Printed(lines[1..])
  {
    var init, last := lines[..|lines| - 1], lines[|lines| - 1];
    if init == [] {
      ConcatLast(lines[0] + "\n", Printed(lines[1..]));
      NothingBefore(last);
    } else {
      PrintedFront(init);
      assert lines[1..] == init[1..] + [last];
      PrintedOneMore(init[1..], last);
      Regroup(lines[0] + "\n", Printed(init[1..]), last);
    }
  }

  lemma Regroup(a: string, b: string, c: string)
    ensures (a + b) + c + "\n" == a + (b + c + "\n")
  {
  }

  lemma {:induction false} SplitPrinted(lines: seq<string>, last: string)
    requires '\n' !in last && forall i :: 0 <= i < |lines| ==> '\n' !in lines[i]
    ensures Split(Printed(lines) + last, '\n') == lines + [last]
  {
    if lines == [] {
      NothingBefore(last);
      NothingBefore([last]);
      SplitWithout(last, '\n');
    } else {
      PrintedFront(lines);
      Associate(lines[0] + "\n", Printed(lines[1..]), last);
      SplitAt(lines[0], '\n', Printed(lines[1..]) + last);
      SplitPrinted(lines[1..], last);
      FirstAndRest(lines, last);
    }
  }

  lemma FirstAndRest(lines: seq<string>, last: string)
    requires lines != []
    ensures [lines[0]] + (lines[1..] + [last]) == lines + [last]
  {
  }

  /** Splitting what was printed gives the lines back; no line at all reads as one empty line. */
  lemma LinesRoundTrip(lines: seq<string>)
    requires forall i :: 0 <= i < |lines| ==> '\n' !in lines[i]
    ensures Split(TrimSuffix(Printed(lines), '\n'), '\n') == if lines == [] then [""] else lines
  {
    if lines != [] {
      var init, last := lines[..|lines| - 1], lines[|lines| - 1];
      Snoc(lines);
      TrimLast(Printed(init) + last, '\n');
      SplitPrinted(init, last);
    }
  }

  lemma TrimLast(s: string, c: char)
    ensures TrimSuffix(s + [c], c) == s
  {
    assert (s + [c])[..|s|] == s;
  }

  lemma LineMatches(k: string, v: string, config: Config)
    requires ' ' !in k && v != ""
    ensures Matches(Line(k, v), config) <==> k in config && config[k] == TrimSuffix(v, ' ')
  {
    var line := Line(k, v);
    assert line[|line| - 1] == v[|v| - 1];
    assert TrimSuffix(line, ' ') == k + [' '] + TrimSuffix(v, ' ');
    SplitFirstAt(k, ' ', TrimSuffix(v, ' '));
  }

  function Printable(config: Config): set<string> {
    set k | k in config && config[k] != ""
  }

  ghost predicate AllMatch(lines: seq<string>, b: Config) {
    forall i :: 0 <= i < |lines| ==> Matches(lines[i], b)
  }

  /** b has the printable entries of config for the given keys, less a trailing space. */
  ghost predicate HasEntries(b: Config, config: Config, keys: seq<string>)
    requires forall k :: k in keys ==> k in config
  {
    forall k :: k in keys && config[k] != "" ==> k in b && b[k] == TrimSuffix(config[k], ' ')
  }

  lemma {:induction false} LinesMatch(config: Config, keys: seq<string>, b: Config)
    requires Plain(config) && forall k :: k in keys ==> k in config
    ensures AllMatch(Lines(config, keys), b) <==> HasEntries(b, config, keys)
  {
    if keys != [] {
      var m := |keys| - 1;
      var k, v := keys[m], config[keys[m]];
      LinesMatch(config, keys[..m], b);
      LinesOfOneMore(config, keys[..m], k);
      EntriesOneMore(config, keys[..m], k, b);
      assert keys == keys[..m] + [k];
      if v != "" {
        LineMatches(k, v, b);
        LinesOneMore(Lines(config, keys[..m]), Line(k, v), b);
      }
    }
  }

  lemma EntriesOneMore(config: Config, keys: seq<string>, k: string, b: Config)
    requires k in config && forall l :: l in keys ==> l in config
    ensures HasEntries(b, config, keys + [k]) <==>
              HasEntries(b, config, keys) && (config[k] != "" ==> k in b && b[k] == TrimSuffix(config[k], ' '))
  {
    assert forall l :: l in keys + [k] <==> l in keys || l == k;
  }

  lemma {:induction false} LinesCount(config: Config, keys: seq<string>)
    requires NoDup(keys) && forall k :: k in keys ==> k in config
    ensures |Lines(config, keys)| == |Printable(config) * ToSet(keys)|
  {
    if keys != [] {
      var m := |keys| - 1;
      LinesCount(config, keys[..m]);
      LinesOfOneMore(config, keys[..m], keys[m]);
      PrintableOneMore(config, keys[..m], keys[m]);
      assert keys == keys[..m] + [keys[m]];
    }
  }

  lemma {:induction false} LinesAreLines(config: Config, keys: seq<string>)
    requires Plain(config) && forall k :: k in keys ==> k in config
    ensures forall i :: 0 <= i < |Lines(config, keys)| ==> '\n' !in Lines(config, keys)[i]
  {
    if keys != [] {
      LinesAreLines(config, keys[..|keys| - 1]);
    }
  }

  lemma PrintableOneMore(config: Config, keys: seq<string>, k: string)
    requires k in config && k !in keys
    ensures |Printable(config) * ToSet(keys + [k])| == |Printable(config) * ToSet(keys)| + if config[k] == "" then 0 else 1
  {
    assert Printable(config) * ToSet(keys + [k]) ==
           Printable(config) * ToSet(keys) + if config[k] == "" then {} else {k};
  }

  lemma LinesOneMore(lines: seq<string>, line: string, b: Config)
    ensures AllMatch(lines + [line], b) <==> AllMatch(lines, b) && Matches(line, b)
  {
    var all := lines + [line];
    assert all[|lines|] == line;
    assert forall i :: 0 <= i < |lines| ==> all[i] == lines[i];
  }

  /** Having all entries of a, and no more of them, is being a. */
  lemma SameEntries(a: Config, b: Config)
    ensures |a| == |b| && (forall k :: k in a ==> k in b && b[k] == a[k]) <==> a == b
  {
    if |a| == |b| && (forall k :: k in a ==> k in b && b[k] == a[k]) {
      assert a.Keys <= b.Keys && |b.Keys| == |a.Keys| + |b.Keys - a.Keys|;
      assert a.Keys == b.Keys;
    }
  }

  /**
   * What the comparer takes for the printed configuration a: the entries of a that have a
   * value, less a trailing space; or, if there are none, any configuration with one entry.
   */
  lemma ComparerAccepts(a: Config, keys: seq<string>, b: Config)
    requires Plain(a) && ListsKeys(keys, a)
    ensures Same(Printed(Lines(a, keys)), b) <==> if Normal(a) == map[] then |b| == 1 else b == Normal(a)
  {
    var lines := Lines(a, keys);
    LinesMatch(a, keys, b);
    LinesCount(a, keys);
    LinesAreLines(a, keys);
    LinesRoundTrip(lines);
    assert Printable(a) * ToSet(keys) == Printable(a) == Normal(a).Keys;
    assert |Normal(a).Keys| == |Normal(a)|;
    if lines == [] {
      assert Normal(a) == map[] by {
        assert Normal(a).Keys == {};
      }
      assert Matches("", b);
    } else {
      SameEntries(Normal(a), b);
      assert forall k :: k in Normal(a) <==> k in keys && a[k] != "";
    }
  }

  /** Values that survive printing and reading. */
  ghost predicate Survives(config: Config) {
    config != map[] && forall k :: k in config ==> config[k] != "" && config[k][|config[k]| - 1] != ' '
  }

  lemma NormalIsSame(a: Config)
    ensures Normal(a) == a <==> forall k :: k in a ==> a[k] != "" && a[k][|a[k]| - 1] != ' '
  {
    if Normal(a) == a {
      forall k | k in a ensures a[k] != "" && a[k][|a[k]| - 1] != ' ' {
        assert k in Normal(a) && Normal(a)[k] == a[k];
        assert |TrimSuffix(a[k], ' ')| == |a[k]|;
      }
    }
  }

  lemma SurvivorsAgree(a: Config, keys: seq<string>, content: string, b: Config)
    requires Plain(a) && ListsKeys(keys, a) && content == Printed(Lines(a, keys)) && Survives(a)
    ensures Same(content, b) <==> b == a
  {
    ComparerAccepts(a, keys, b);
    NormalIsSame(a);
  }

  lemma OtherSingleton(a: Config) returns (b: Config)
    ensures |b| == 1 && b != a
  {
    b := map["x" := ""];
    if b == a {
      b := map["y" := ""];
      assert "x" in a && "x" !in b;
    }
  }

  /** A configuration that the comparer takes for the printed a although it is another one. */
  lemma Mistaken(a: Config, keys: seq<string>, content: string) returns (b: Config)
    requires Plain(a) && ListsKeys(keys, a) && content == Printed(Lines(a, keys)) && !Survives(a)
    ensures Same(content, b) && b != a
  {
    if Normal(a) == map[] {
      b := OtherSingleton(a);
    } else {
      b := Normal(a);
      NormalIsSame(a);
    }
    ComparerAccepts(a, keys, b);
  }

  /**
   * Printer and comparer agree on a, for every b, if and only if a has an entry and all its
   * values are non-empty and do not end in a space.
   */
  lemma PrinterAndComparerAgree(a: Config, keys: seq<string>, content: string)
    requires Plain(a) && ListsKeys(keys, a) && content == Printed(Lines(a, keys))
    ensures (forall b: Config :: Same(content, b) <==> b == a) <==> Survives(a)
  {
    if Survives(a) {
      forall b: Config ensures Same(content, b) <==> b == a {
        SurvivorsAgree(a, keys, content, b);
      }
    } else {
      var b := Mistaken(a, keys, content);
    }
  }

  /** So an unchanged empty configuration is always taken for changed. */
  lemma EmptyConfigLooksChanged()
    ensures !Same(Printed(Lines(map[], [])), map[])
  {
    ComparerAccepts(map[], [], map[]);
  }
}
