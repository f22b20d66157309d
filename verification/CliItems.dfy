/**
 The token loop of the command-line parser against a grammar: an argument list is read as words and
 flags, each flag alone, with a value behind an equals sign, or with the next argument as its value.
 */
module CliItems {
  import opened Prelude
  import opened CliArgs

  datatype Item = Word(word: string) | Assigned(name: string, value: string) | Spaced(name: string, value: string)
                | Bare(name: string)

  function Shown(item: Item): seq<string> {
    match item
    case Word(word) => [word]
    case Assigned(name, value) => ["--" + name + "=" + value]
    case Spaced(name, value) => ["--" + name, value]
    case Bare(name) => ["--" + name]
  }

  function ShownAll(items: seq<Item>): seq<string> {
    if items == [] then [] else Shown(items[0]) + ShownAll(items[1..])
  }

  /** Where a flag cannot take the next argument: it is the command, a flag, or not there. */
  predicate Alone(at: nat, command: int, worded: bool, rest: seq<Item>) {
    (!worded && at + 1 == command) || rest == [] || !rest[0].Word?
  }

  /**
   The reading of an argument list from position `at` on: a flag without a value is boolean or stands
   alone, and one that takes the next argument is neither boolean nor right before the command.
   */
  predicate Reading(t: Tables, items: seq<Item>, at: nat, command: int, worded: bool) {
    items != [] ==>
      var rest := items[1..];
      match items[0]
      case Word(word) => !Dashed(word) && Reading(t, rest, at + 1, command, true)
      case Assigned(name, _) => '=' !in name && Reading(t, rest, at + 1, command, worded)
      case Spaced(name, value) =>
        && '=' !in name && name !in t.booleans && !Dashed(value) && !(!worded && at + 1 == command)
        && Reading(t, rest, at + 2, command, worded)
      case Bare(name) =>
        && '=' !in name && (name in t.booleans || Alone(at, command, worded, rest))
        && Reading(t, rest, at + 1, command, worded)
  }

  function WordOf(item: Item): seq<string> { if item.Word? then [item.word] else [] }

  function FlagOf(item: Item): seq<FlagEntry> {
    match item
    case Word(_) => []
    case Bare(name) => [FlagEntry(name, True)]
    case Assigned(name, value) => [FlagEntry(name, Text(value))]
    case Spaced(name, value) => [FlagEntry(name, Text(value))]
  }

  function Words(items: seq<Item>): seq<string> {
    if items == [] then [] else WordOf(items[0]) + Words(items[1..])
  }

  function Flagged(items: seq<Item>): seq<FlagEntry> {
    if items == [] then [] else FlagOf(items[0]) + Flagged(items[1..])
  }

  function With(p: Scanned, item: Item): Scanned { Scanned(p.path + WordOf(item), p.entries + FlagOf(item)) }

  lemma {:induction false} DashesAreDropped(text: string)
    ensures Dashed("--" + text) && ("--" + text)[2..] == text
  {
  }

  lemma {:induction false} EqualsSplits(name: string, value: string)
    requires '=' !in name
    ensures var i := IndexOf(name + "=" + value, '=');
            && i == |name| && (name + "=" + value)[..i] == name && (name + "=" + value)[i + 1..] == value
  {
    var s := name + "=" + value;
    assert s[|name|] == '=';
    assert forall k :: 0 <= k < |name| ==> s[k] == name[k];
    assert forall k :: |name| < k <= |s| ==> s[..k][|name|] == '=';
  }

  lemma {:induction false} NoEquals(name: string)
    requires '=' !in name
    ensures IndexOf(name, '=') == |name|
  {
  }

  lemma {:induction false} ShownStarts(items: seq<Item>)
    requires items != []
    ensures ShownAll(items) != [] && ShownAll(items) == Shown(items[0]) + ShownAll(items[1..])
    ensures !items[0].Word? ==> Dashed(ShownAll(items)[0])
    ensures items[0].Word? ==> ShownAll(items)[0] == items[0].word
  {
  }

  lemma {:induction false} ReadingGoesOn(t: Tables, items: seq<Item>, at: nat, command: int, p: Scanned)
    requires items != [] && Reading(t, items, at, command, p.path != [])
    ensures Reading(t, items[1..], at + |Shown(items[0])|, command, With(p, items[0]).path != [])
  {
    assert !items[0].Word? ==> With(p, items[0]).path == p.path;
  }

  /** What the parser needs to know of the first item and what follows it. */
  lemma {:induction false} ReadingMeans(t: Tables, items: seq<Item>, at: nat, command: int, worded: bool)
    requires items != [] && Reading(t, items, at, command, worded)
    ensures var item, argv := items[0], ShownAll(items);
            && |argv| >= |Shown(item)| && argv[..|Shown(item)|] == Shown(item)
            && argv[|Shown(item)|..] == ShownAll(items[1..])
            && (item.Word? ==> !Dashed(item.word))
            && (!item.Word? ==> '=' !in item.name)
            && (item.Spaced? ==> item.name !in t.booleans && !Dashed(item.value) && !(!worded && at + 1 == command))
            && (item.Bare? ==>
                  item.name in t.booleans || (!worded && at + 1 == command) || |argv| == 1 || Dashed(argv[1]))
  {
    hide Dashed;
    ShownStarts(items);
    if items[1..] != [] {
      ShownStarts(items[1..]);
      assert ShownAll(items)[|Shown(items[0])|] == ShownAll(items[1..])[0];
    }
  }

  lemma {:induction false} OneItemRead(t: Tables, items: seq<Item>, at: nat, command: int, p: Scanned)
    requires items != [] && Reading(t, items, at, command, p.path != [])
    ensures Scan(t, ShownAll(items), at, command, p)
         == Scan(t, ShownAll(items[1..]), at + |Shown(items[0])|, command, With(p, items[0]))
  {
    hide IndexOf, Dashed, Scan, Reading, ShownAll;
    ReadingMeans(t, items, at, command, p.path != []);
    var argv := ShownAll(items);
    match items[0]
    case Word(word) =>
      assert argv[0] == argv[..1][0] == word;
      WordScanned(t, argv, at, command, p);
    case Assigned(name, value) =>
      assert argv[0] == argv[..1][0] == "--" + (name + "=" + value);
      DashesAreDropped(name + "=" + value);
      EqualsSplits(name, value);
      AssignedScanned(t, argv, at, command, p);
    case Spaced(name, value) =>
      assert argv[0] == argv[..2][0] == "--" + name && argv[1] == argv[..2][1] == value;
      DashesAreDropped(name);
      NoEquals(name);
      SpacedScanned(t, argv, at, command, p);
    case Bare(name) =>
      assert argv[0] == argv[..1][0] == "--" + name;
      DashesAreDropped(name);
      NoEquals(name);
      BareScanned(t, argv, at, command, p);
  }

  lemma {:induction false} WordScanned(t: Tables, argv: seq<string>, at: nat, command: int, p: Scanned)
    requires argv != [] && !Dashed(argv[0])
    ensures Scan(t, argv, at, command, p)
         == Scan(t, argv[1..], at + 1, command, Scanned(p.path + [argv[0]], p.entries + []))
  {
    assert p.entries + [] == p.entries;
  }

  lemma {:induction false} AssignedScanned(t: Tables, argv: seq<string>, at: nat, command: int, p: Scanned)
    requires argv != [] && Dashed(argv[0]) && IndexOf(argv[0][2..], '=') < |argv[0][2..]|
    ensures var flag, i := argv[0][2..], IndexOf(argv[0][2..], '=');
            var next := Scanned(p.path + [], p.entries + [FlagEntry(flag[..i], Text(flag[i + 1..]))]);
            Scan(t, argv, at, command, p) == Scan(t, argv[1..], at + 1, command, next)
  {
    assert p.path + [] == p.path;
  }

  lemma {:induction false} SpacedScanned(t: Tables, argv: seq<string>, at: nat, command: int, p: Scanned)
    requires |argv| > 1 && Dashed(argv[0]) && IndexOf(argv[0][2..], '=') == |argv[0][2..]|
    requires argv[0][2..] !in t.booleans && !Dashed(argv[1]) && !(p.path == [] && at + 1 == command)
    ensures Scan(t, argv, at, command, p)
         == Scan(t, argv[2..], at + 2, command,
                 Scanned(p.path + [], p.entries + [FlagEntry(argv[0][2..], Text(argv[1]))]))
  {
    assert p.path + [] == p.path;
  }

  lemma {:induction false} BareScanned(t: Tables, argv: seq<string>, at: nat, command: int, p: Scanned)
    requires argv != [] && Dashed(argv[0]) && IndexOf(argv[0][2..], '=') == |argv[0][2..]|
    requires argv[0][2..] in t.booleans || (p.path == [] && at + 1 == command) || |argv| == 1 || Dashed(argv[1])
    ensures Scan(t, argv, at, command, p)
         == Scan(t, argv[1..], at + 1, command, Scanned(p.path + [], p.entries + [FlagEntry(argv[0][2..], True)]))
  {
    assert p.path + [] == p.path;
  }

  lemma {:induction false} ItemsAreReadFrom(t: Tables, items: seq<Item>, at: nat, command: int, p: Scanned)
    requires Reading(t, items, at, command, p.path != [])
    ensures Scan(t, ShownAll(items), at, command, p) == Scanned(p.path + Words(items), p.entries + Flagged(items))
    decreases |items|
  {
    hide *;
    if items == [] {
      NothingScanned(t, at, command, p);
    } else {
      var item, rest := items[0], items[1..];
      OneItemRead(t, items, at, command, p);
      ReadingGoesOn(t, items, at, command, p);
      ItemsAreReadFrom(t, rest, at + |Shown(item)|, command, With(p, item));
      WithFirst(p, items);
    }
  }

  lemma {:induction false} NothingScanned(t: Tables, at: nat, command: int, p: Scanned)
    ensures Scan(t, ShownAll([]), at, command, p) == Scanned(p.path + Words([]), p.entries + Flagged([]))
  {
    assert p.path + [] == p.path && p.entries + [] == p.entries;
  }

  lemma {:induction false} WithFirst(p: Scanned, items: seq<Item>)
    requires items != []
    ensures var next := With(p, items[0]);
            && next.path + Words(items[1..]) == p.path + Words(items)
            && next.entries + Flagged(items[1..]) == p.entries + Flagged(items)
  {
    hide WordOf, FlagOf;
    var item, rest := items[0], items[1..];
    assert p.path + WordOf(item) + Words(rest) == p.path + (WordOf(item) + Words(rest));
    assert p.entries + FlagOf(item) + Flagged(rest) == p.entries + (FlagOf(item) + Flagged(rest));
  }

  /** Main result: an argument list that shows some items is parsed into their words and flags. */
  lemma {:induction false} ItemsAreParsed(t: Tables, items: seq<Item>, specs: seq<Spec>)
    requires Reading(t, items, 0, t.commandIndex(ShownAll(items)), false)
    ensures Parsed(t, ShownAll(items), specs)
         == ParsedArgs(Words(items), Collect(Flagged(items), RepeatableFor(specs, Words(items))))
  {
    hide Scan, Collect, RepeatableFor;
    ItemsAreReadFrom(t, items, 0, t.commandIndex(ShownAll(items)), Scanned([], []));
    assert [] + Words(items) == Words(items) && [] + Flagged(items) == Flagged(items);
  }

  lemma {:induction false} SplitAtEquals(flag: string) returns (name: string, value: string)
    requires '=' in flag
    ensures '=' !in name && flag == name + "=" + value
  {
    var i := IndexOf(flag, '=');
    name, value := flag[..i], flag[i + 1..];
  }

  lemma {:induction false} DashedText(token: string)
    requires Dashed(token)
    ensures |token| >= 2 && token == "--" + token[2..]
  {
  }

  /** The item an argument list starts with. */
  lemma {:induction false} FirstItem(t: Tables, argv: seq<string>, at: nat, command: int, worded: bool)
    returns (item: Item, n: nat)
    requires argv != []
    ensures 0 < n <= |argv| && Shown(item) == argv[..n]
    ensures item.Word? ==> !Dashed(item.word)
    ensures !item.Word? ==> '=' !in item.name
    ensures item.Spaced? ==> item.name !in t.booleans && !Dashed(item.value) && !(!worded && at + 1 == command)
    ensures item.Bare? ==>
              item.name in t.booleans || (!worded && at + 1 == command) || n == |argv| || Dashed(argv[n])
  {
    hide IndexOf, Dashed;
    n := 1;
    if !Dashed(argv[0]) {
      item := Word(argv[0]);
    } else {
      DashedText(argv[0]);
      var flag := argv[0][2..];
      if '=' in flag {
        var name, value := SplitAtEquals(flag);
        item := Assigned(name, value);
        assert "--" + name + "=" + value == "--" + (name + "=" + value);
      } else if flag in t.booleans || (!worded && at + 1 == command) || |argv| == 1 || Dashed(argv[1]) {
        item := Bare(flag);
      } else {
        item, n := Spaced(flag, argv[1]), 2;
      }
    }
  }

  lemma {:induction false} ReadingMore(t: Tables, item: Item, rest: seq<Item>, at: nat, command: int, worded: bool)
    requires Reading(t, rest, at + |Shown(item)|, command, worded || item.Word?)
    requires item.Word? ==> !Dashed(item.word)
    requires !item.Word? ==> '=' !in item.name
    requires item.Spaced? ==> item.name !in t.booleans && !Dashed(item.value) && !(!worded && at + 1 == command)
    requires item.Bare? ==> item.name in t.booleans || Alone(at, command, worded, rest)
    ensures Reading(t, [item] + rest, at, command, worded)
  {
    assert ([item] + rest)[1..] == rest;
  }

  /** And every argument list shows some items, so that is what the parser makes of any list. */
  lemma {:induction false} EveryListShowsItems(t: Tables, argv: seq<string>, at: nat, command: int, worded: bool)
    returns (items: seq<Item>)
    ensures Reading(t, items, at, command, worded) && ShownAll(items) == argv
    decreases |argv|
  {
    if argv == [] {
      items := [];
    } else {
      hide Reading, Dashed;
      var item, n := FirstItem(t, argv, at, command, worded);
      var rest := EveryListShowsItems(t, argv[n..], at + n, command, worded || item.Word?);
      items := [item] + rest;
      assert items[1..] == rest && argv == argv[..n] + argv[n..];
      if rest != [] {
        ShownStarts(rest);
        WordsAreNotDashed(t, rest, at + n, command, worded || item.Word?);
        assert ShownAll(rest)[0] == argv[n];
      } else {
        assert argv[n..] == [];
      }
      ReadingMore(t, item, rest, at, command, worded);
    }
  }

  lemma {:induction false} WordsAreNotDashed(t: Tables, items: seq<Item>, at: nat, command: int, worded: bool)
    requires items != [] && Reading(t, items, at, command, worded)
    ensures items[0].Word? ==> !Dashed(items[0].word)
  {
  }

  /** The flags that repeat: two for every command, and what the spec of the longest matching path declares. */
  lemma {:induction false} RepeatableMeans(
    specs: seq<Spec>, path: seq<string>, best: Option<(Spec, nat)>, name: string)
    requires IsBest(Candidates(specs), path, best)
    ensures name in RepeatableFor(specs, path)
            <==> || name == "label" || name == "skill"
                 || (best.Some? && best.value.0.repeatableFlags.Some? && name in best.value.0.repeatableFlags.value)
  {
    BestIsUnique(Candidates(specs), path, best, BestOf(Candidates(specs), path));
  }

  /** Every path and alias of every spec is a candidate, in order. */
  lemma {:induction false} EveryPathIsCandidate(specs: seq<Spec>, spec: Spec, path: seq<string>)
    ensures (spec, path) in Candidates(specs) <==> spec in specs && (path == spec.path || path in spec.aliases)
  {
    if specs != [] {
      var init, last := specs[..|specs| - 1], specs[|specs| - 1];
      EveryPathIsCandidate(init, spec, path);
      CandidatesOfOne(last, spec, path);
      assert specs == init + [last];
    }
  }

  lemma {:induction false} CandidatesOfOne(owner: Spec, spec: Spec, path: seq<string>)
    ensures (spec, path) in CandidatesOf(owner, SpecPaths(owner))
            <==> spec == owner && (path == owner.path || path in owner.aliases)
  {
    var paths := SpecPaths(owner);
    var all := CandidatesOf(owner, paths);
    if spec == owner && path in paths {
      var i :| 0 <= i < |paths| && paths[i] == path;
      assert all[i] == (spec, path);
    }
    assert path in paths <==> path == owner.path || path in owner.aliases;
  }
}
