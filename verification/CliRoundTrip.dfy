/**
 Printing parsed arguments and parsing them again. The canonical form of a call is its command path
 followed by its flags, a string flag as --name=value, a repeated one once for each of its values.
 */
module CliRoundTrip {
  import opened CliArgs

  /** The values a repeated flag holds, joined by the separator. */
  function Split(s: string): (parts: seq<string>)
    ensures parts != []
  {
    var i := IndexOf(s, SEPARATOR);
    if i == |s| then [s] else [s[..i]] + Split(s[i + 1..])
  }

  function Join(parts: seq<string>): string
    requires parts != []
  {
    if |parts| == 1 then parts[0] else Join(parts[..|parts| - 1]) + [SEPARATOR] + parts[|parts| - 1]
  }

  function Assignment(name: string, value: string): string { "--" + name + "=" + value }

  /** The tokens that print one flag. */
  function FlagTokens(name: string, value: FlagValue, repeatable: set<string>): seq<string> {
    match value
    case True => ["--" + name]
    case Text(s) => if name in repeatable then Assignments(name, Split(s)) else [Assignment(name, s)]
  }

  function Assignments(name: string, values: seq<string>): seq<string> {
    seq(|values|, i requires 0 <= i < |values| => Assignment(name, values[i]))
  }

  function AllTokens(flags: Flags, order: seq<string>, repeatable: set<string>): seq<string> {
    if order == [] then []
    else
      var name := order[|order| - 1];
      AllTokens(flags, order[..|order| - 1], repeatable)
        + if name in flags then FlagTokens(name, flags[name], repeatable) else []
  }

  /** Path first, then the flags in the given order. */
  function Print(parsed: ParsedArgs, order: seq<string>, specs: seq<Spec>): seq<string> {
    parsed.commandPath + AllTokens(parsed.flags, order, RepeatableFor(specs, parsed.commandPath))
  }

  /** An order of the flags: each once. */
  ghost predicate Enumerates(order: seq<string>, flags: Flags) {
    && (forall name :: name in order <==> name in flags)
    && (forall i, j :: 0 <= i < j < |order| ==> order[i] != order[j])
  }

  // ---------- scanning printed tokens ----------

  /** The flag entry a printed token is read as. */
  function EntryOf(token: string): FlagEntry {
    if !Dashed(token) then FlagEntry("", True)
    else
      var flag := token[2..];
      var equals := IndexOf(flag, '=');
      if equals < |flag| then FlagEntry(flag[..equals], Text(flag[equals + 1..])) else FlagEntry(flag, True)
  }

  function EntriesOf(tokens: seq<string>): seq<FlagEntry> {
    seq(|tokens|, i requires 0 <= i < |tokens| => EntryOf(tokens[i]))
  }

  lemma {:induction false} ScanPath(t: Tables, path: seq<string>, rest: seq<string>, at: nat, command: int, p: Scanned)
    requires forall token <- path :: !Dashed(token)
    ensures Scan(t, path + rest, at, command, p) == Scan(t, rest, at + |path|, command, p.(path := p.path + path))
    decreases |path|
  {
    if path == [] {
      assert path + rest == rest && p.path + path == p.path;
    } else {
      assert (path + rest)[1..] == path[1..] + rest;
      var q := p.(path := p.path + [path[0]]);
      ScanPath(t, path[1..], rest, at + 1, command, q);
      assert q.path + path[1..] == p.path + path;
    }
  }

  lemma {:induction false} ScanFlag(t: Tables, token: string, rest: seq<string>, at: nat, command: int, p: Scanned)
    requires Dashed(token) && (rest != [] ==> Dashed(rest[0]))
    ensures Scan(t, [token] + rest, at, command, p)
         == Scan(t, rest, at + 1, command, p.(entries := p.entries + [EntryOf(token)]))
  {
    var all := [token] + rest;
    assert all[1..] == rest && (rest != [] ==> all[1] == rest[0]);
  }

  /** A run of flag tokens is read one entry a token: none takes the next one as its value. */
  lemma {:induction false} ScanFlags(t: Tables, tokens: seq<string>, at: nat, command: int, p: Scanned)
    requires forall token <- tokens :: Dashed(token)
    ensures Scan(t, tokens, at, command, p) == p.(entries := p.entries + EntriesOf(tokens))
    decreases |tokens|
  {
    if tokens == [] {
      assert p.entries + EntriesOf(tokens) == p.entries;
    } else {
      hide Scan, EntryOf;
      var token, rest := tokens[0], tokens[1..];
      assert tokens == [token] + rest && (rest != [] ==> rest[0] in tokens);
      ScanFlag(t, token, rest, at, command, p);
      var q := p.(entries := p.entries + [EntryOf(token)]);
      ScanFlags(t, rest, at + 1, command, q);
      assert q.entries + EntriesOf(rest) == p.entries + EntriesOf(tokens);
    }
  }

  lemma {:induction false} AssignmentReads(name: string, value: string)
    requires '=' !in name
    ensures Dashed(Assignment(name, value)) && EntryOf(Assignment(name, value)) == FlagEntry(name, Text(value))
  {
    var flag := Assignment(name, value)[2..];
    assert flag == name + "=" + value;
    FirstIndex(flag, '=', |name|);
    assert flag[..|name|] == name && flag[|name| + 1..] == value;
  }

  lemma {:induction false} BareReads(name: string)
    requires '=' !in name
    ensures Dashed("--" + name) && EntryOf("--" + name) == FlagEntry(name, True)
  {
    assert ("--" + name)[2..] == name;
  }

  lemma {:induction false} FirstIndex(s: string, c: char, i: nat)
    requires i < |s| && s[i] == c && c !in s[..i]
    ensures IndexOf(s, c) == i
  {
    var j := IndexOf(s, c);
    NotEarlier(s, c, i, j);
    NotEarlier(s, c, j, i);
  }

  lemma {:induction false} NotEarlier(s: string, c: char, i: nat, j: nat)
    requires i <= |s| && c !in s[..i] && j < |s| && s[j] == c
    ensures i <= j
  {
    assert s[..i] == seq(i, k requires 0 <= k < i => s[k]);
  }

  // ---------- collecting printed flags ----------

  function TextEntries(name: string, values: seq<string>): seq<FlagEntry> {
    seq(|values|, i requires 0 <= i < |values| => FlagEntry(name, Text(values[i])))
  }

  lemma {:induction false} SplitStep(s: string)
    ensures var i := IndexOf(s, SEPARATOR);
            Split(s) == if i == |s| then [s] else [s[..i]] + Split(s[i + 1..])
  {
    hide IndexOf;
  }

  lemma {:induction false} JoinStep(parts: seq<string>, last: string)
    ensures Join([last]) == last
    ensures parts != [] ==> Join(parts + [last]) == Join(parts) + [SEPARATOR] + last
  {
    assert (parts + [last])[..|parts|] == parts;
  }

  lemma {:induction false} SplitJoins(s: string)
    ensures Join(Split(s)) == s
    decreases |s|
  {
    hide Join, Split;
    var i := IndexOf(s, SEPARATOR);
    SplitStep(s);
    if i < |s| {
      SplitJoins(s[i + 1..]);
      JoinCons(s[..i], Split(s[i + 1..]));
      assert s == s[..i] + [SEPARATOR] + s[i + 1..];
    } else {
      JoinStep([], s);
    }
  }

  lemma {:induction false} JoinCons(first: string, more: seq<string>)
    requires more != []
    ensures Join([first] + more) == first + [SEPARATOR] + Join(more)
    decreases |more|
  {
    hide Join;
    var init, last := more[..|more| - 1], more[|more| - 1];
    assert [first] + more == ([first] + init) + [last];
    JoinStep([first] + init, last);
    JoinStep([], first);
    if init == [] {
      assert more == [last] && [first] + init == [first];
      JoinStep([], last);
    } else {
      JoinCons(first, init);
      assert more == init + [last];
      JoinStep(init, last);
      var a, b, c := first + [SEPARATOR], Join(init), [SEPARATOR] + last;
      assert (a + b) + c == a + (b + c);
    }
  }

  /** Repeated values are joined again, and a flag not seen before starts afresh. */
  lemma {:induction false} CollectTexts(
    before: seq<FlagEntry>, name: string, values: seq<string>, repeatable: set<string>)
    requires values != [] && name !in Collect(before, repeatable) && (|values| > 1 ==> name in repeatable)
    ensures Collect(before + TextEntries(name, values), repeatable)
         == Collect(before, repeatable)[name := Text(Join(values))]
    decreases |values|
  {
    hide Join, Collect;
    var n := |values| - 1;
    var init, last := values[..n], values[n];
    JoinStep(init, last);
    assert values == init + [last];
    assert before + TextEntries(name, values) == before + TextEntries(name, init) + [FlagEntry(name, Text(last))];
    CollectText(before + TextEntries(name, init), name, last, repeatable);
    if n == 0 {
      assert before + TextEntries(name, init) == before && values == [last];
    } else {
      CollectTexts(before, name, init, repeatable);
    }
  }

  lemma {:induction false} CollectText(before: seq<FlagEntry>, name: string, value: string, repeatable: set<string>)
    ensures Collect(before + [FlagEntry(name, Text(value))], repeatable)
         == SetFlagValue(Collect(before, repeatable), name, value, repeatable)
  {
    var all := before + [FlagEntry(name, Text(value))];
    assert all[..|all| - 1] == before;
  }

  lemma {:induction false} CollectTrue(before: seq<FlagEntry>, name: string, repeatable: set<string>)
    ensures Collect(before + [FlagEntry(name, True)], repeatable) == Collect(before, repeatable)[name := True]
  {
    var all := before + [FlagEntry(name, True)];
    assert all[..|all| - 1] == before;
  }

  lemma {:induction false} GroupCollects(
    before: seq<FlagEntry>, name: string, value: FlagValue, repeatable: set<string>)
    requires '=' !in name && name !in Collect(before, repeatable)
    ensures Collect(before + EntriesOf(FlagTokens(name, value, repeatable)), repeatable)
         == Collect(before, repeatable)[name := value]
    ensures forall token <- FlagTokens(name, value, repeatable) :: Dashed(token)
  {
    match value
    case True =>
      BareReads(name);
      assert EntriesOf(["--" + name]) == [FlagEntry(name, True)];
      CollectTrue(before, name, repeatable);
    case Text(s) =>
      var values := if name in repeatable then Split(s) else [s];
      forall i | 0 <= i < |values|
        ensures Dashed(Assignment(name, values[i]))
        ensures EntryOf(Assignment(name, values[i])) == FlagEntry(name, Text(values[i]))
      {
        AssignmentReads(name, values[i]);
      }
      assert FlagTokens(name, value, repeatable) == Assignments(name, values);
      assert EntriesOf(Assignments(name, values)) == TextEntries(name, values);
      SplitJoins(s);
      CollectTexts(before, name, values, repeatable);
  }

  function Restricted(flags: Flags, order: seq<string>): Flags {
    map name | name in flags && name in order :: flags[name]
  }

  lemma {:induction false} RestrictedSnoc(flags: Flags, init: seq<string>, name: string)
    requires name !in init
    ensures name !in Restricted(flags, init)
    ensures Restricted(flags, init + [name])
         == if name in flags then Restricted(flags, init)[name := flags[name]] else Restricted(flags, init)
  {
  }

  lemma {:induction false} EntriesAppend(a: seq<string>, b: seq<string>)
    ensures EntriesOf(a + b) == EntriesOf(a) + EntriesOf(b)
  {
  }

  lemma {:induction false} TokensCollect(flags: Flags, order: seq<string>, repeatable: set<string>)
    requires forall name <- flags :: '=' !in name
    requires forall i, j :: 0 <= i < j < |order| ==> order[i] != order[j]
    ensures Collect(EntriesOf(AllTokens(flags, order, repeatable)), repeatable) == Restricted(flags, order)
    ensures forall token <- AllTokens(flags, order, repeatable) :: Dashed(token)
  {
    if order != [] {
      hide Collect, FlagTokens, EntriesOf, Restricted, EntryOf, Dashed;
      var n := |order| - 1;
      var init, name := order[..n], order[n];
      TokensCollect(flags, init, repeatable);
      assert order == init + [name] && name !in init;
      var earlier := AllTokens(flags, init, repeatable);
      RestrictedSnoc(flags, init, name);
      if name in flags {
        EntriesAppend(earlier, FlagTokens(name, flags[name], repeatable));
        GroupCollects(EntriesOf(earlier), name, flags[name], repeatable);
      } else {
        assert earlier + [] == earlier;
      }
    } else {
      assert EntriesOf([]) == [];
    }
  }

  // ---------- main results ----------

  /** Arguments with a printable form: no path token looks like a flag, no flag name holds an equals sign. */
  predicate Printable(parsed: ParsedArgs) {
    && (forall token <- parsed.commandPath :: !Dashed(token))
    && (forall name <- parsed.flags :: '=' !in name)
  }

  /** Main result: parsing a printed call gives back the same path and the same flags. */
  lemma {:induction false} PrintedArgsParseBack(t: Tables, parsed: ParsedArgs, order: seq<string>, specs: seq<Spec>)
    requires Printable(parsed) && Enumerates(order, parsed.flags)
    ensures Parsed(t, Print(parsed, order, specs), specs) == parsed
  {
    var path, repeatable := parsed.commandPath, RepeatableFor(specs, parsed.commandPath);
    var tokens := AllTokens(parsed.flags, order, repeatable);
    var argv := Print(parsed, order, specs);
    var command := t.commandIndex(argv);
    hide RepeatableFor, Scan, Collect, AllTokens;
    ScanPath(t, path, tokens, 0, command, Scanned([], []));
    assert [] + path == path;
    TokensCollect(parsed.flags, order, repeatable);
    ScanFlags(t, tokens, |path|, command, Scanned(path, []));
    assert [] + EntriesOf(tokens) == EntriesOf(tokens);
    assert Restricted(parsed.flags, order) == parsed.flags;
  }

  ghost predicate ScannedPrintable(p: Scanned) {
    && (forall token <- p.path :: !Dashed(token))
    && (forall e <- p.entries :: '=' !in e.name)
  }

  lemma {:induction false} ScanIsPrintable(t: Tables, rest: seq<string>, at: nat, command: int, p: Scanned)
    requires ScannedPrintable(p)
    ensures ScannedPrintable(Scan(t, rest, at, command, p))
    decreases |rest|
  {
    if rest != [] {
      if !Dashed(rest[0]) {
        ScanIsPrintable(t, rest[1..], at + 1, command, p.(path := p.path + [rest[0]]));
      } else {
        var flag := rest[0][2..];
        var equals := IndexOf(flag, '=');
        if equals < |flag| {
          ScanIsPrintable(t, rest[1..], at + 1, command, WithFlag(p, flag[..equals], Text(flag[equals + 1..])));
        } else if flag in t.booleans || (p.path == [] && at + 1 == command) || |rest| == 1 || Dashed(rest[1]) {
          ScanIsPrintable(t, rest[1..], at + 1, command, WithFlag(p, flag, True));
        } else {
          ScanIsPrintable(t, rest[2..], at + 2, command, WithFlag(p, flag, Text(rest[1])));
        }
      }
    }
  }

  lemma {:induction false} CollectedNames(entries: seq<FlagEntry>, repeatable: set<string>)
    requires forall e <- entries :: '=' !in e.name
    ensures forall name <- Collect(entries, repeatable) :: '=' !in name
  {
    if entries != [] {
      CollectedNames(entries[..|entries| - 1], repeatable);
      assert entries[|entries| - 1] in entries;
    }
  }

  /** For every argument list: printing what was parsed and parsing it again changes nothing. */
  lemma {:induction false} ParsingIsStable(t: Tables, argv: seq<string>, order: seq<string>, specs: seq<Spec>)
    requires Enumerates(order, Parsed(t, argv, specs).flags)
    ensures Parsed(t, Print(Parsed(t, argv, specs), order, specs), specs) == Parsed(t, argv, specs)
  {
    var scanned := Scan(t, argv, 0, t.commandIndex(argv), Scanned([], []));
    ScanIsPrintable(t, argv, 0, t.commandIndex(argv), Scanned([], []));
    CollectedNames(scanned.entries, RepeatableFor(specs, scanned.path));
    hide Scan, Collect, RepeatableFor, Print;
    PrintedArgsParseBack(t, Parsed(t, argv, specs), order, specs);
  }

  /** Once the path has begun, where the command index points no longer matters. */
  lemma {:induction false} IndexMattersBeforeCommandOnly(
    t: Tables, rest: seq<string>, at: nat, at': nat, command: int, command': int, p: Scanned)
    requires p.path != []
    ensures Scan(t, rest, at, command, p) == Scan(t, rest, at', command', p)
    decreases |rest|
  {
    if rest != [] {
      if !Dashed(rest[0]) {
        IndexMattersBeforeCommandOnly(t, rest[1..], at + 1, at' + 1, command, command', p.(path := p.path + [rest[0]]));
      } else {
        var flag := rest[0][2..];
        var equals := IndexOf(flag, '=');
        if equals < |flag| {
          IndexMattersBeforeCommandOnly(t, rest[1..], at + 1, at' + 1, command, command',
                                        WithFlag(p, flag[..equals], Text(flag[equals + 1..])));
        } else if flag in t.booleans || |rest| == 1 || Dashed(rest[1]) {
          IndexMattersBeforeCommandOnly(t, rest[1..], at + 1, at' + 1, command, command', WithFlag(p, flag, True));
        } else {
          IndexMattersBeforeCommandOnly(
            t, rest[2..], at + 2, at' + 2, command, command', WithFlag(p, flag, Text(rest[1])));
        }
      }
    }
  }

  /** After the command begins, a value may follow its flag as the next argument or after an equals sign. */
  lemma {:induction false} SpacedValuesAgree(
    t: Tables, name: string, value: string, rest: seq<string>,
    at: nat, at': nat, command: int, command': int, p: Scanned)
    requires p.path != [] && '=' !in name && name !in t.booleans && !Dashed(value)
    ensures Scan(t, ["--" + name, value] + rest, at, command, p)
         == Scan(t, [Assignment(name, value)] + rest, at', command', p)
  {
    var spaced, joined := ["--" + name, value] + rest, [Assignment(name, value)] + rest;
    assert ("--" + name)[2..] == name && spaced[2..] == rest && joined[1..] == rest;
    AssignmentReads(name, value);
    IndexMattersBeforeCommandOnly(t, rest, at + 2, at' + 1, command, command', WithFlag(p, name, Text(value)));
  }
}
