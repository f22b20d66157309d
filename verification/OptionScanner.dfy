/**
 Reading the option keys of a call from source text, with two hand-written scanners that must agree:
 one finds the bracket that closes the call, the other collects the keys at the top level of the
 object literal inside. Both skip strings and comments.

 The scanners are loops over an index; what they mean is a recursive function on the text that is
 left, one move at a time.
 */
module OptionScanner {
  import opened Prelude

  datatype Quote = Single | Double | Template
  datatype Mode = InCode | InLine | InBlock | InString(quote: Quote)

  function QuoteChar(q: Quote): char {
    match q
    case Single => '\''
    case Double => '\"'
    case Template => '`'
  }

  predicate Opening(c: char) { c == '(' || c == '{' || c == '[' }
  predicate Closing(c: char) { c == ')' || c == '}' || c == ']' }

  /** The non-code mode that the start of a text opens. */
  function OpensNonCode(s: string): Option<Mode>
    requires s != []
  {
    if s[0] == '/' && |s| > 1 && s[1] == '/' then Some(InLine)
    else if s[0] == '/' && |s| > 1 && s[1] == '*' then Some(InBlock)
    else if s[0] == '\'' then Some(InString(Single))
    else if s[0] == '\"' then Some(InString(Double))
    else if s[0] == '`' then Some(InString(Template))
    else None
  }

  function OpenerLength(m: Mode): nat { if m == InLine || m == InBlock then 2 else 1 }

  /** One move outside code: the characters it takes and the mode after it. */
  function NonCodeMove(s: string, mode: Mode): (nat, Mode)
    requires s != []
  {
    match mode
    case InLine => (1, if s[0] == '\n' then InCode else InLine)
    case InBlock => if s[0] == '*' && |s| > 1 && s[1] == '/' then (2, InCode) else (1, InBlock)
    case InString(q) => if s[0] == '\\' then (2, mode) else (1, if s[0] == QuoteChar(q) then InCode else mode)
    case InCode => (1, InCode)
  }

  /** A template that starts an interpolation, which the first scanner reports as unreadable. */
  predicate Interpolates(s: string, mode: Mode)
    requires s != []
  {
    mode == InString(Template) && s[0] == '$' && |s| > 1 && s[1] == '{'
  }

  function Drop(s: string, n: nat): string { if n <= |s| then s[n..] else [] }

  lemma {:induction false} DropDrop(text: string, index: nat, n: nat)
    requires index <= |text|
    ensures Drop(text[index..], n) == Drop(text, index + n)
  {
  }

  // ---------- the closing bracket ----------

  datatype Move = Stop(found: bool) | Go(skip: nat, depth: nat, mode: Mode)

  function BracketMove(s: string, depth: nat, mode: Mode): (m: Move)
    requires s != []
    ensures m.Go? ==> m.skip > 0
  {
    if mode != InCode then
      if Interpolates(s, mode) then Stop(false) else Go(NonCodeMove(s, mode).0, depth, NonCodeMove(s, mode).1)
    else if OpensNonCode(s).Some? then Go(OpenerLength(OpensNonCode(s).value), depth, OpensNonCode(s).value)
    else if Opening(s[0]) then Go(1, depth + 1, InCode)
    else if Closing(s[0]) then if depth <= 1 then Stop(depth == 1) else Go(1, depth - 1, InCode)
    else Go(1, depth, InCode)
  }

  function Shift(r: Option<nat>, n: nat): Option<nat> {
    match r
    case None => None
    case Some(k) => Some(k + n)
  }

  /** Where in `s` the bracket stands that closes the innermost `depth` open ones. */
  function Balanced(s: string, depth: nat, mode: Mode): Option<nat>
    decreases |s|
  {
    if s == [] then None
    else match BracketMove(s, depth, mode)
    case Stop(found) => if found then Some(0) else None
    case Go(n, d, m) => Shift(Balanced(Drop(s, n), d, m), n)
  }

  /** The text between the first bracket and the one that closes it. */
  function ArgumentsOf(s: string): Option<string> {
    match Balanced(s, 0, InCode)
    case None => None
    case Some(k) => if 1 <= k <= |s| then Some(s[1..k]) else None
  }

  /** The scan from `start` has reached `index` and gives `whole` in the end. */
  ghost predicate Scanning(text: string, start: nat, index: nat, depth: nat, mode: Mode, whole: Option<nat>) {
    start <= index && whole == Shift(Balanced(Drop(text, index), depth, mode), index - start)
  }

  lemma {:induction false} ScanStarts(text: string, start: nat)
    ensures Scanning(text, start, start, 0, InCode, Balanced(Drop(text, start), 0, InCode))
  {
  }

  lemma {:induction false} ScanMoves(text: string, start: nat, index: nat, depth: nat, mode: Mode, whole: Option<nat>)
    requires Scanning(text, start, index, depth, mode, whole) && index < |text|
    ensures var move := BracketMove(text[index..], depth, mode);
            && (move.Stop? ==> whole == if move.found then Some(index - start) else None)
            && (move.Go? ==> Scanning(text, start, index + move.skip, move.depth, move.mode, whole))
  {
    hide BracketMove;
    var move := BracketMove(text[index..], depth, mode);
    assert Drop(text, index) == text[index..];
    if move.Go? {
      DropDrop(text, index, move.skip);
      ShiftShift(Balanced(Drop(text, index + move.skip), move.depth, move.mode), move.skip, index - start);
    }
  }

  lemma {:induction false} ShiftShift(r: Option<nat>, m: nat, n: nat)
    ensures Shift(Shift(r, m), n) == Shift(r, m + n)
  {
  }

  lemma {:induction false} ScanEnds(text: string, start: nat, index: nat, depth: nat, mode: Mode, whole: Option<nat>)
    requires Scanning(text, start, index, depth, mode, whole) && index >= |text|
    ensures whole == None
  {
  }

  /** An index past the end opens nothing, so nothing closes either. */
  method BalancedArguments(text: string, openIndex: nat) returns (args: Option<string>)
    ensures args == ArgumentsOf(Drop(text, openIndex))
  {
    hide Scanning;
    var depth: nat := 0;
    var mode := InCode;
    var index := openIndex;
    ghost var whole := Balanced(Drop(text, openIndex), 0, InCode);
    ScanStarts(text, openIndex);
    while index < |text|
      invariant openIndex <= index
      invariant Scanning(text, openIndex, index, depth, mode, whole)
      invariant index == openIndex ==> depth == 0
      decreases |text| - index
    {
      ScanMoves(text, openIndex, index, depth, mode, whole);
      ghost var start := index;
      ghost var move := BracketMove(text[index..], depth, mode);
      var current := text[index];
      if mode == InCode {
        var entered := OpensNonCode(text[index..]);
        if entered.Some? {
          mode := entered.value;
          if mode == InLine || mode == InBlock {
            index := index + 1;
          }
        } else if Opening(current) {
          depth := depth + 1;
        } else if Closing(current) {
          if depth == 1 {
            assert text[openIndex..][1..index - openIndex] == text[openIndex + 1..index];
            return Some(text[openIndex + 1..index]);
          }
          if depth == 0 {
            return None;
          }
          depth := depth - 1;
        }
      } else if mode == InLine {
        if current == '\n' {
          mode := InCode;
        }
      } else if mode == InBlock {
        if current == '*' && index + 1 < |text| && text[index + 1] == '/' {
          mode := InCode;
          index := index + 1;
        }
      } else if current == '\\' {
        index := index + 1;
      } else if mode == InString(Template) && current == '$' && index + 1 < |text| && text[index + 1] == '{' {
        return None;
      } else if current == QuoteChar(mode.quote) {
        mode := InCode;
      }
      index := index + 1;
      assert move == Go(index - start, depth, mode);
    }
    ScanEnds(text, openIndex, index, depth, mode, whole);
    return None;
  }

  // ---------- the keys of an object literal ----------

  /** JavaScript's white space and line terminators, which trim removes. */
  predicate IsSpace(c: char) {
    var u := c as int;
    0x09 <= u <= 0x0D || u == 0x20 || u == 0xA0 || u == 0x1680 || 0x2000 <= u <= 0x200A
    || u == 0x2028 || u == 0x2029 || u == 0x202F || u == 0x205F || u == 0x3000 || u == 0xFEFF
  }

  function TrimStart(s: string): string {
    if s != [] && IsSpace(s[0]) then TrimStart(s[1..]) else s
  }

  function TrimEnd(s: string): string {
    if s != [] && IsSpace(s[|s| - 1]) then TrimEnd(s[..|s| - 1]) else s
  }

  function Trim(s: string): string { TrimEnd(TrimStart(s)) }

  /** The second scanner between two characters. */
  datatype Reader = Reader(depth: int, mode: Mode, inValue: bool, token: string, keys: seq<string>)

  const FRESH := Reader(0, InCode, false, "", [])

  /** A token ends: it is a key when it stands at the top level and is not blank. */
  function Flush(r: Reader): Reader {
    var name := Trim(r.token);
    r.(token := "", keys := if name != "" && r.depth == 0 then r.keys + [name] else r.keys)
  }

  function Keep(r: Reader, c: char): Reader { if r.inValue then r else r.(token := r.token + [c]) }

  function CodeChar(r: Reader, c: char): Reader {
    if Opening(c) then Keep(r.(depth := r.depth + 1), c)
    else if Closing(c) then Keep(r.(depth := r.depth - 1), c)
    else if c == ':' && r.depth == 0 && !r.inValue then Flush(r).(inValue := true)
    else if c == ',' && r.depth == 0 then if r.inValue then r.(inValue := false, token := "") else Flush(r)
    else Keep(r, c)
  }

  function KeyMove(s: string, r: Reader): (m: (nat, Reader))
    requires s != []
    ensures m.0 > 0
  {
    if r.mode != InCode then (NonCodeMove(s, r.mode).0, r.(mode := NonCodeMove(s, r.mode).1))
    else if OpensNonCode(s).Some? then (OpenerLength(OpensNonCode(s).value), r.(mode := OpensNonCode(s).value))
    else (1, CodeChar(r, s[0]))
  }

  function Read(s: string, r: Reader): Reader
    decreases |s|
  {
    if s == [] then r else Read(Drop(s, KeyMove(s, r).0), KeyMove(s, r).1)
  }

  function KeysOf(body: string): seq<string> {
    var last := Read(body, FRESH);
    if last.inValue then last.keys else Flush(last).keys
  }

  lemma {:induction false} ReadStep(text: string, index: nat, r: Reader)
    requires index < |text|
    ensures var move := KeyMove(text[index..], r);
            Read(text[index..], r) == Read(Drop(text, index + move.0), move.1)
  {
    DropDrop(text, index, KeyMove(text[index..], r).0);
  }

  method ObjectLiteralKeys(body: string) returns (keys: seq<string>)
    ensures keys == KeysOf(body)
  {
    hide Read, Trim;
    keys := [];
    var depth := 0;
    var mode := InCode;
    var inValue := false;
    var token := "";
    var index := 0;
    while index < |body|
      invariant Read(body, FRESH) == Read(Drop(body, index), Reader(depth, mode, inValue, token, keys))
      decreases |body| - index
    {
      ghost var before := Reader(depth, mode, inValue, token, keys);
      ghost var start := index;
      ReadStep(body, index, before);
      var current := body[index];
      if mode == InCode {
        var entered := OpensNonCode(body[index..]);
        if entered.Some? {
          mode := entered.value;
          if mode == InLine || mode == InBlock {
            index := index + 1;
          }
        } else if Opening(current) {
          depth := depth + 1;
          token := if inValue then token else token + [current];
        } else if Closing(current) {
          depth := depth - 1;
          token := if inValue then token else token + [current];
        } else if current == ':' && depth == 0 && !inValue {
          var name := Trim(token);
          token := "";
          if name != "" && depth == 0 {
            keys := keys + [name];
          }
          inValue := true;
        } else if current == ',' && depth == 0 {
          if inValue {
            inValue := false;
            token := "";
          } else {
            var name := Trim(token);
            token := "";
            if name != "" && depth == 0 {
              keys := keys + [name];
            }
          }
        } else if !inValue {
          token := token + [current];
        }
      } else if mode == InLine {
        if current == '\n' {
          mode := InCode;
        }
      } else if mode == InBlock {
        if current == '*' && index + 1 < |body| && body[index + 1] == '/' {
          mode := InCode;
          index := index + 1;
        }
      } else if current == '\\' {
        index := index + 1;
      } else if current == QuoteChar(mode.quote) {
        mode := InCode;
      }
      index := index + 1;
      assert KeyMove(body[start..], before) == (index - start, Reader(depth, mode, inValue, token, keys));
    }
    assert Drop(body, index) == [];
    ReadEmpty(Reader(depth, mode, inValue, token, keys));
    if !inValue {
      var name := Trim(token);
      if name != "" && depth == 0 {
        keys := keys + [name];
      }
    }
  }

  lemma {:induction false} ReadEmpty(r: Reader)
    ensures Read([], r) == r
  {
  }

  // ---------- the whole reader ----------

  predicate IdStart(c: char) { 'A' <= c <= 'Z' || 'a' <= c <= 'z' || c == '_' || c == '$' }
  predicate IdPart(c: char) { IdStart(c) || '0' <= c <= '9' }
  predicate Identifier(s: string) { s != [] && IdStart(s[0]) && forall c <- s :: IdPart(c) }

  datatype Reason = NeverCloses | NoArgument | NotObjectLiteral | UnreadableKey(key: string)
  datatype CallOptionKeys = Readable(keys: seq<string>) | Unreadable(reason: Reason)

  function FirstUnreadable(keys: seq<string>): Option<string> {
    if keys == [] then None
    else if !Identifier(keys[0]) then Some(keys[0])
    else FirstUnreadable(keys[1..])
  }

  function KeysOfArguments(args: string): CallOptionKeys {
    var trimmed := Trim(args);
    if trimmed == "" then Unreadable(NoArgument)
    else if trimmed[0] != '{' || trimmed[|trimmed| - 1] != '}' then Unreadable(NotObjectLiteral)
    else
      var keys := KeysOf(trimmed[1..|trimmed| - 1]);
      match FirstUnreadable(keys)
      case Some(key) => Unreadable(UnreadableKey(key))
      case None => Readable(keys)
  }

  function CallKeys(s: string): CallOptionKeys {
    match ArgumentsOf(s)
    case None => Unreadable(NeverCloses)
    case Some(args) => KeysOfArguments(args)
  }

  method ReadCallOptionKeys(text: string, parenIndex: nat) returns (result: CallOptionKeys)
    ensures result == CallKeys(Drop(text, parenIndex))
  {
    var args := BalancedArguments(text, parenIndex);
    if args.None? {
      return Unreadable(NeverCloses);
    }
    var trimmed := Trim(args.value);
    if trimmed == "" {
      return Unreadable(NoArgument);
    }
    if trimmed[0] != '{' || trimmed[|trimmed| - 1] != '}' {
      return Unreadable(NotObjectLiteral);
    }
    assert |trimmed| > 1;
    var keys := ObjectLiteralKeys(trimmed[1..|trimmed| - 1]);
    var unreadable := FirstUnreadable(keys);
    return if unreadable.Some? then Unreadable(UnreadableKey(unreadable.value)) else Readable(keys);
  }
}
