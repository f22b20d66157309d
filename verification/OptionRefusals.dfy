/**
 Calls that the reader of option keys reports as unreadable rather than guess: an interpolated template at
 any depth, an argument list that does not close, no argument, and an argument that is no object literal.
 */
module OptionRefusals {
  import opened Prelude
  import opened OptionScanner
  import opened OptionSyntax
  import opened OptionCalls

  /** Some code and a bracket that stays open. */
  datatype Level = Level(before: seq<Piece>, open: char)

  predicate OkLevels(levels: seq<Level>) { forall l <- levels :: Ok(l.before) && Opening(l.open) }

  function PrintLevels(levels: seq<Level>): string {
    if levels == [] then "" else Print(levels[0].before) + ([levels[0].open] + PrintLevels(levels[1..]))
  }

  lemma {:induction false} LevelsAreOpen(levels: seq<Level>, rest: string, depth: nat)
    requires OkLevels(levels) && depth >= 1
    ensures Balanced(PrintLevels(levels) + rest, depth, InCode)
         == Shift(Balanced(rest, depth + |levels|, InCode), |PrintLevels(levels)|)
    decreases |levels|
  {
    hide Balanced, Print, Ok;
    if levels == [] {
      assert PrintLevels(levels) + rest == rest;
    } else {
      var l, more := levels[0], levels[1..];
      assert l in levels && OkLevels(more);
      var inner := PrintLevels(more) + rest;
      assert PrintLevels(levels) + rest == Print(l.before) + ([l.open] + inner);
      BalancedPieces(l.before, [l.open] + inner, depth);
      BalancedOpen(l.open, inner, depth);
      LevelsAreOpen(more, rest, depth + 1);
      var whole := Balanced(rest, depth + |levels|, InCode);
      ShiftShift(whole, |PrintLevels(more)|, 1);
      ShiftShift(whole, |PrintLevels(more)| + 1, |Print(l.before)|);
    }
  }

  /** What comes after some units does not turn a dollar sign at their end into an interpolation. */
  predicate Follows(q: Quote, units: seq<Unit>, rest: string) {
    units != [] && units[|units| - 1] == Plain('$') && q == Template ==> rest == "" || rest[0] != '{'
  }

  function UnitText(unit: Unit): string { if unit.Escaped? then ['\\', unit.c] else [unit.c] }

  lemma {:induction false} FirstUnitPrints(units: seq<Unit>, rest: string)
    requires units != []
    ensures PrintUnits(units) + rest == UnitText(units[0]) + (PrintUnits(units[1..]) + rest)
  {
  }

  /** The second character of some units and what follows them. */
  lemma {:induction false} NextStarts(units: seq<Unit>, rest: string)
    ensures units == [] ==> PrintUnits(units) + rest == rest
    ensures PrintUnits(units) + rest == "" || (PrintUnits(units) + rest)[0]
            == if units == [] then rest[0] else if units[0].Escaped? then '\\' else units[0].c
  {
    if units == [] {
      assert PrintUnits(units) + rest == rest;
    } else {
      FirstUnitPrints(units, rest);
    }
  }

  lemma {:induction false} OkUnitsMean(q: Quote, units: seq<Unit>)
    requires OkUnits(q, units) && units != []
    ensures OkUnits(q, units[1..])
    ensures units[0].Plain? ==> units[0].c != QuoteChar(q) && units[0].c != '\\'
    ensures q == Template && units[0] == Plain('$') && |units| > 1 ==> units[1] != Plain('{')
  {
  }

  lemma {:induction false} UnitMove(q: Quote, units: seq<Unit>, rest: string, depth: nat)
    requires OkUnits(q, units) && units != [] && Follows(q, units, rest)
    ensures var s, n := PrintUnits(units) + rest, |UnitText(units[0])|;
            && s != "" && BracketMove(s, depth, InString(q)) == Go(n, depth, InString(q))
            && Drop(s, n) == PrintUnits(units[1..]) + rest
    ensures OkUnits(q, units[1..]) && Follows(q, units[1..], rest)
  {
    hide Balanced, PrintUnits, OkUnits;
    OkUnitsMean(q, units);
    FirstUnitPrints(units, rest);
    NextStarts(units[1..], rest);
    var more := PrintUnits(units[1..]) + rest;
    var s := PrintUnits(units) + rest;
    if units[0].Escaped? {
      assert s[0] == '\\';
    } else {
      assert s[0] == units[0].c && (|s| > 1 ==> s[1] == more[0]);
      if units[0] == Plain('$') && q == Template && |s| > 1 {
        assert s[1] != '{' by {
          if |units| == 1 {
            assert units[|units| - 1] == Plain('$') && more == rest;
          } else {
            assert units[1..][0] == units[1];
          }
        }
      }
      assert !Interpolates(s, InString(q));
    }
  }

  /** In a string, after some of its units, nothing closes if what follows closes nothing. */
  lemma {:induction false} UnitsCloseNothing(q: Quote, units: seq<Unit>, rest: string, depth: nat)
    requires OkUnits(q, units) && Balanced(rest, depth, InString(q)) == None && Follows(q, units, rest)
    ensures Balanced(PrintUnits(units) + rest, depth, InString(q)) == None
    decreases |units|
  {
    hide *;
    if units == [] {
      NoUnits();
      assert PrintUnits(units) + rest == rest;
    } else {
      UnitMove(q, units, rest, depth);
      UnitsCloseNothing(q, units[1..], rest, depth);
      BalancedGo(PrintUnits(units) + rest, depth, InString(q));
      NoneShifts(|UnitText(units[0])|);
    }
  }

  lemma {:induction false} NoUnits()
    ensures PrintUnits([]) == ""
  {
  }

  lemma {:induction false} NoneShifts(n: nat)
    ensures Shift(None, n) == None
  {
  }

  /** What a call starts with: open brackets, code, and then `rest` that closes nothing. */
  lemma {:induction false} NeverClosing(levels: seq<Level>, before: seq<Piece>, rest: string)
    requires OkLevels(levels) && Ok(before) && Balanced(rest, 1 + |levels|, InCode) == None
    ensures CallKeys("(" + (PrintLevels(levels) + (Print(before) + rest))) == Unreadable(NeverCloses)
  {
    hide Balanced, Print, PrintLevels, Ok;
    var inner := PrintLevels(levels) + (Print(before) + rest);
    assert "(" + inner == ['('] + inner;
    BalancedOpen('(', inner, 0);
    LevelsAreOpen(levels, Print(before) + rest, 1);
    BalancedPieces(before, rest, 1 + |levels|);
  }

  lemma {:induction false} InterpolationStops(rest: string, depth: nat)
    ensures Balanced("${" + rest, depth, InString(Template)) == None
  {
    assert ("${" + rest)[0] == '$' && ("${" + rest)[1] == '{';
  }

  lemma {:induction false} QuoteOpens(q: Quote, rest: string, depth: nat)
    requires Balanced(rest, depth, InString(q)) == None
    ensures Balanced([QuoteChar(q)] + rest, depth, InCode) == None
  {
    var s := [QuoteChar(q)] + rest;
    assert Drop(s, 1) == rest;
    BalancedGo(s, depth, InCode);
  }

  /** A template that interpolates makes the call unreadable, at whatever depth it stands and whatever follows. */
  lemma {:induction false} InterpolationsAreUnreadable(
    levels: seq<Level>, before: seq<Piece>, units: seq<Unit>, rest: string)
    requires OkLevels(levels) && Ok(before) && OkUnits(Template, units)
    ensures var template := "`" + (PrintUnits(units) + ("${" + rest));
            CallKeys("(" + (PrintLevels(levels) + (Print(before) + template))) == Unreadable(NeverCloses)
  {
    hide Balanced, Print, PrintLevels, PrintUnits, Ok, OkUnits;
    var depth := 1 + |levels|;
    InterpolationStops(rest, depth);
    UnitsCloseNothing(Template, units, "${" + rest, depth);
    QuoteOpens(Template, PrintUnits(units) + ("${" + rest), depth);
    NeverClosing(levels, before, "`" + (PrintUnits(units) + ("${" + rest)));
  }

  lemma {:induction false} NothingCloses(depth: nat, mode: Mode)
    ensures Balanced("", depth, mode) == None
  {
  }

  /** So does a text that ends before the call does, in code or inside a string. */
  lemma {:induction false} UnfinishedCallsAreUnreadable(
    levels: seq<Level>, before: seq<Piece>, q: Quote, units: seq<Unit>)
    requires OkLevels(levels) && Ok(before) && OkUnits(q, units)
    ensures CallKeys("(" + (PrintLevels(levels) + (Print(before) + ""))) == Unreadable(NeverCloses)
    ensures var text := [QuoteChar(q)] + (PrintUnits(units) + "");
            CallKeys("(" + (PrintLevels(levels) + (Print(before) + text))) == Unreadable(NeverCloses)
  {
    hide Balanced, Print, PrintLevels, PrintUnits, Ok, OkUnits;
    var depth := 1 + |levels|;
    NothingCloses(depth, InCode);
    NothingCloses(depth, InString(q));
    NeverClosing(levels, before, "");
    UnitsCloseNothing(q, units, "", depth);
    QuoteOpens(q, PrintUnits(units) + "", depth);
    NeverClosing(levels, before, [QuoteChar(q)] + (PrintUnits(units) + ""));
  }

  /** So does a text in which a bracket closes before one opens. */
  lemma {:induction false} NothingOpened(code: string, close: char, rest: string)
    requires Quiet(code) && Closing(close)
    ensures CallKeys(code + ([close] + rest)) == Unreadable(NeverCloses)
  {
    hide Quiet;
    BalancedQuiet(code, [close] + rest, 0);
    ClosingStops(close, rest);
  }

  lemma {:induction false} ClosingStops(close: char, rest: string)
    requires Closing(close)
    ensures Balanced([close] + rest, 0, InCode) == None
  {
  }

  /** White space alone is no argument. */
  lemma {:induction false} BlankCallsAreUnreadable(pieces: seq<Piece>, suffix: string)
    requires Ok(pieces) && Blank(Print(pieces))
    ensures CallKeys("(" + Print(pieces) + ")" + suffix) == Unreadable(NoArgument)
  {
    hide Print, Ok;
    var text := Print(pieces);
    TrimPadded(text, "", "");
    assert text + "" + "" == text;
    ArgumentsFound(pieces, suffix);
  }

  /** Arguments that start with anything but a brace are reported as unreadable, whatever stands in them. */
  lemma {:induction false} OtherStartsAreUnreadable(pieces: seq<Piece>, i: nat, suffix: string)
    requires Ok(pieces) && i < |Print(pieces)|
    requires Blank(Print(pieces)[..i]) && !IsSpace(Print(pieces)[i]) && Print(pieces)[i] != '{'
    ensures CallKeys("(" + Print(pieces) + ")" + suffix) == Unreadable(NotObjectLiteral)
  {
    hide Print, Ok, Trim, KeysOf;
    var text := Print(pieces);
    assert text == text[..i] + text[i..];
    TrimKeepsFirst(text[..i], text[i..]);
    ArgumentsFound(pieces, suffix);
  }

  /** The key named in a refusal is the first that is no identifier, and without one there is no refusal. */
  lemma {:induction false} FirstUnreadableIsFirst(keys: seq<string>)
    ensures match FirstUnreadable(keys)
            case None => forall key <- keys :: Identifier(key)
            case Some(key) =>
              exists i :: 0 <= i < |keys| && keys[i] == key && !Identifier(key)
                          && forall j :: 0 <= j < i ==> Identifier(keys[j])
  {
    if keys != [] && Identifier(keys[0]) {
      FirstUnreadableIsFirst(keys[1..]);
      if FirstUnreadable(keys).Some? {
        var i :| && 0 <= i < |keys[1..]| && keys[1..][i] == FirstUnreadable(keys).value
                 && !Identifier(keys[1..][i]) && forall j :: 0 <= j < i ==> Identifier(keys[1..][j]);
        assert keys[i + 1] == keys[1..][i];
        assert forall j :: 0 < j < i + 1 ==> keys[j] == keys[1..][j - 1];
      } else {
        assert forall key <- keys :: key == keys[0] || key in keys[1..];
      }
    } else if keys != [] {
      assert keys[0] == FirstUnreadable(keys).value;
    }
  }
}
