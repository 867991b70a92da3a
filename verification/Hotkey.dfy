/** Reading and printing hotkeys (crates/wx-agent/src/config.rs:431-680). */
module Hotkeys {
  import opened Texts
  import opened Wrappers

  /** The bits of the wire's modifier byte. */
  datatype Modifier = Shift | Ctrl | Alt | Super | AltGr | CapsLock | NumLock | Spare

  type Modifiers = set<Modifier>

  datatype SpecialKey =
    | Escape | Backspace | Tab | Enter | Delete | Insert | Home | End | PageUp | PageDown | Up | Down | Left | Right
    | F1 | F2 | F3 | F4 | F5 | F6 | F7 | F8 | F9 | F10 | F11 | F12
    | Unbindable(index: nat) // every key the table of names leaves out

  datatype HotkeyKey = Char(c: char) | Special(key: SpecialKey)

  datatype Hotkey = Hotkey(mods: Modifiers, key: HotkeyKey)

  datatype HotkeyParseError =
    | Empty
    | TooManyKeys(first: string, second: string)
    | ModifiersOnly
    | UnknownKey(name: string)

  // --- Text ----------------------------------------------------------------

  function LowerChar(c: char): char {
    if 'A' <= c <= 'Z' then (c as int + 32) as char else c
  }

  function Lower(s: string): (r: string)
    ensures |r| == |s| && forall i :: 0 <= i < |s| ==> r[i] == LowerChar(s[i])
  {
    if s == [] then [] else [LowerChar(s[0])] + Lower(s[1..])
  }

  function Split(s: string): (r: seq<string>)
    ensures |r| >= 1
  {
    if s == [] then [[]]
    else
      var rest := Split(s[1..]);
      if s[0] == '+' then [[]] + rest else [[s[0]] + rest[0]] + rest[1..]
  }

  // --- Names ---------------------------------------------------------------

  function ModifierNamed(token: string): Option<Modifier> {
    if token in {"ctrl", "control"} then Some(Ctrl)
    else if token in {"alt", "option", "opt"} then Some(Alt)
    else if token in {"altgr", "alt_gr", "ralt"} then Some(AltGr)
    else if token == "shift" then Some(Shift)
    else if token in {"super", "win", "windows", "cmd", "command", "meta"} then Some(Super)
    else None
  }

  function SpecialName(key: SpecialKey): Option<string> {
    match key
    case Escape => Some("escape")
    case Backspace => Some("backspace")
    case Tab => Some("tab")
    case Enter => Some("enter")
    case Delete => Some("delete")
    case Insert => Some("insert")
    case Home => Some("home")
    case End => Some("end")
    case PageUp => Some("pageup")
    case PageDown => Some("pagedown")
    case Up => Some("up")
    case Down => Some("down")
    case Left => Some("left")
    case Right => Some("right")
    case F1 => Some("f1")
    case F2 => Some("f2")
    case F3 => Some("f3")
    case F4 => Some("f4")
    case F5 => Some("f5")
    case F6 => Some("f6")
    case F7 => Some("f7")
    case F8 => Some("f8")
    case F9 => Some("f9")
    case F10 => Some("f10")
    case F11 => Some("f11")
    case F12 => Some("f12")
    case Unbindable(_) => None
  }

  function SpecialNamed(name: string): Option<SpecialKey> {
    if name == "escape" then Some(Escape)
    else if name == "backspace" then Some(Backspace)
    else if name == "tab" then Some(Tab)
    else if name == "enter" then Some(Enter)
    else if name == "delete" then Some(Delete)
    else if name == "insert" then Some(Insert)
    else if name == "home" then Some(Home)
    else if name == "end" then Some(End)
    else if name == "pageup" then Some(PageUp)
    else if name == "pagedown" then Some(PageDown)
    else if name == "up" then Some(Up)
    else if name == "down" then Some(Down)
    else if name == "left" then Some(Left)
    else if name == "right" then Some(Right)
    else if name == "f1" then Some(F1)
    else if name == "f2" then Some(F2)
    else if name == "f3" then Some(F3)
    else if name == "f4" then Some(F4)
    else if name == "f5" then Some(F5)
    else if name == "f6" then Some(F6)
    else if name == "f7" then Some(F7)
    else if name == "f8" then Some(F8)
    else if name == "f9" then Some(F9)
    else if name == "f10" then Some(F10)
    else if name == "f11" then Some(F11)
    else if name == "f12" then Some(F12)
    else None
  }

  function ParseKeyToken(token: string): Option<HotkeyKey> {
    if |token| == 1 then Some(Char(LowerChar(token[0])))
    else if token in {"space", "spacebar"} then Some(Char(' '))
    else
      var alias :=
        if token == "esc" then "escape"
        else if token == "return" then "enter"
        else if token == "del" then "delete"
        else if token == "ins" then "insert"
        else if token in {"pgup", "page_up"} then "pageup"
        else if token in {"pgdn", "page_down"} then "pagedown"
        else token;
      var key := SpecialNamed(alias);
      if key.Some? then Some(Special(key.value)) else None
  }

  // --- Reading -------------------------------------------------------------

  function ParseTokens(raws: seq<string>, mods: Modifiers, key: Option<(string, HotkeyKey)>): Result<Hotkey, HotkeyParseError>
    decreases raws
  {
    if raws == [] then
      if key.Some? then Ok(Hotkey(mods, key.value.1)) else Err(if mods == {} then Empty else ModifiersOnly)
    else
      var token := Lower(Trim(raws[0]));
      var modifier := ModifierNamed(token);
      if token == "" then ParseTokens(raws[1..], mods, key)
      else if modifier.Some? then ParseTokens(raws[1..], mods + {modifier.value}, key)
      else
        var parsed := ParseKeyToken(token);
        if parsed.None? then Err(UnknownKey(Trim(raws[0])))
        else if key.Some? then Err(TooManyKeys(key.value.0, token))
        else ParseTokens(raws[1..], mods, Some((token, parsed.value)))
  }

  function Parse(s: string): Result<Hotkey, HotkeyParseError> {
    ParseTokens(Split(s), {}, None)
  }

  method ParseHotkey(s: string) returns (r: Result<Hotkey, HotkeyParseError>)
    ensures r == Parse(s)
  {
    var mods: Modifiers := {};
    var key: Option<(string, HotkeyKey)> := None;
    var raws := Split(s);
    for i := 0 to |raws|
      invariant ParseTokens(raws[i..], mods, key) == Parse(s)
    {
      assert raws[i..][1..] == raws[i + 1..];
      var token := Lower(Trim(raws[i]));
      if token == "" {
        continue;
      }
      var modifier := ModifierNamed(token);
      if modifier.Some? {
        mods := mods + {modifier.value};
        continue;
      }
      var parsed := ParseKeyToken(token);
      if parsed.None? {
        return Err(UnknownKey(Trim(raws[i])));
      }
      if key.Some? {
        return Err(TooManyKeys(key.value.0, token));
      }
      key := Some((token, parsed.value));
    }
    if key.Some? {
      return Ok(Hotkey(mods, key.value.1));
    }
    return Err(if mods == {} then Empty else ModifiersOnly);
  }

  // --- Printing ------------------------------------------------------------

  const MODIFIER_NAMES: seq<(Modifier, string)> :=
    [(Ctrl, "ctrl"), (Alt, "alt"), (AltGr, "altgr"), (Shift, "shift"), (Super, "super")]

  function PrintMods(mods: Modifiers, names: seq<(Modifier, string)>): string {
    if names == [] then ""
    else (if names[0].0 in mods then names[0].1 + "+" else "") + PrintMods(mods, names[1..])
  }

  function KeyText(key: HotkeyKey): string {
    match key
    case Char(c) => if c == ' ' then "space" else [c]
    case Special(k) => if SpecialName(k).Some? then SpecialName(k).value else "unknown"
  }

  function Print(h: Hotkey): string {
    PrintMods(h.mods, MODIFIER_NAMES) + KeyText(h.key)
  }

  function SaveOptional(v: Option<Hotkey>): string {
    if v.Some? then Print(v.value) else ""
  }

  function LoadOptional(text: string): Result<Option<Hotkey>, HotkeyParseError> {
    var trimmed := Trim(text);
    if trimmed == "" || Lower(trimmed) == "none" then Ok(None)
    else match Parse(trimmed)
      case Ok(h) => Ok(Some(h))
      case Err(e) => Err(e)
  }

  // --- What is read --------------------------------------------------------

  function KeyTokens(raws: seq<string>): seq<string> {
    if raws == [] then []
    else
      var token := Lower(Trim(raws[0]));
      (if token == "" || ModifierNamed(token).Some? then [] else [token]) + KeyTokens(raws[1..])
  }

  function ModifiersAmong(raws: seq<string>): Modifiers {
    if raws == [] then {}
    else
      var modifier := ModifierNamed(Lower(Trim(raws[0])));
      (if modifier.Some? then {modifier.value} else {}) + ModifiersAmong(raws[1..])
  }

  lemma NoModifierIsEmpty()
    ensures ModifierNamed("") == None
  {
  }

  lemma {:induction false} ReadsExactly(raws: seq<string>, mods: Modifiers, key: Option<(string, HotkeyKey)>, h: Hotkey)
    ensures ParseTokens(raws, mods, key) == Ok(h) <==>
              && h.mods == mods + ModifiersAmong(raws)
              && (if key.Some? then KeyTokens(raws) == [] && h.key == key.value.1
                  else |KeyTokens(raws)| == 1 && ParseKeyToken(KeyTokens(raws)[0]) == Some(h.key))
    decreases raws
  {
    hide ModifierNamed, ParseKeyToken, Trim, Lower;
    if raws != [] {
      var token := Lower(Trim(raws[0]));
      var modifier := ModifierNamed(token);
      if token == "" {
        NoModifierIsEmpty();
        ReadsExactly(raws[1..], mods, key, h);
      } else if modifier.Some? {
        ReadsExactly(raws[1..], mods + {modifier.value}, key, h);
        assert mods + ModifiersAmong(raws) == mods + {modifier.value} + ModifiersAmong(raws[1..]);
      } else {
        assert KeyTokens(raws) == [token] + KeyTokens(raws[1..]);
        assert ModifiersAmong(raws) == ModifiersAmong(raws[1..]);
        if ParseKeyToken(token).Some? && key.None? {
          ReadsExactly(raws[1..], mods, Some((token, ParseKeyToken(token).value)), h);
        }
      }
    } else {
      assert mods + ModifiersAmong(raws) == mods;
    }
  }

  /** What a text means: its modifiers in any order, spelling or number, and exactly one key that has a name or
      is a single character. Anything else is refused. */
  lemma MeansExactly(s: string, h: Hotkey)
    ensures Parse(s) == Ok(h) <==>
              h.mods == ModifiersAmong(Split(s))
              && |KeyTokens(Split(s))| == 1 && ParseKeyToken(KeyTokens(Split(s))[0]) == Some(h.key)
  {
    ReadsExactly(Split(s), {}, None, h);
  }

  /** Why a text is refused: it names nothing; modifiers and no key; a second key, both of them keys; or, among the
      first two names that are no modifiers, one that is no key either. */
  ghost predicate RightlyRefused(keys: seq<string>, mods: Modifiers, e: HotkeyParseError) {
    match e
    case Empty => keys == [] && mods == {}
    case ModifiersOnly => keys == [] && mods != {}
    case TooManyKeys(first, second) =>
      |keys| >= 2 && first == keys[0] && second == keys[1] && ParseKeyToken(first).Some? && ParseKeyToken(second).Some?
    case UnknownKey(name) =>
      || (|keys| >= 1 && Lower(name) == keys[0] && ParseKeyToken(keys[0]).None?)
      || (|keys| >= 2 && Lower(name) == keys[1] && ParseKeyToken(keys[0]).Some? && ParseKeyToken(keys[1]).None?)
  }

  lemma {:induction false} RefusesRightly(raws: seq<string>, mods: Modifiers, key: Option<(string, HotkeyKey)>)
    requires key.Some? ==> ParseKeyToken(key.value.0).Some?
    ensures var r, earlier := ParseTokens(raws, mods, key), if key.Some? then [key.value.0] else [];
            r.Err? ==> RightlyRefused(earlier + KeyTokens(raws), mods + ModifiersAmong(raws), r.error)
    decreases raws
  {
    hide ModifierNamed, ParseKeyToken, Trim, Lower;
    var earlier := if key.Some? then [key.value.0] else [];
    if raws == [] {
      assert earlier + KeyTokens(raws) == earlier && mods + ModifiersAmong(raws) == mods;
    } else {
      var token := Lower(Trim(raws[0]));
      var modifier := ModifierNamed(token);
      if token == "" {
        NoModifierIsEmpty();
        RefusesRightly(raws[1..], mods, key);
        assert KeyTokens(raws) == KeyTokens(raws[1..]) && ModifiersAmong(raws) == ModifiersAmong(raws[1..]);
      } else if modifier.Some? {
        RefusesRightly(raws[1..], mods + {modifier.value}, key);
        assert mods + ModifiersAmong(raws) == mods + {modifier.value} + ModifiersAmong(raws[1..]);
        assert KeyTokens(raws) == KeyTokens(raws[1..]);
      } else {
        assert KeyTokens(raws) == [token] + KeyTokens(raws[1..]);
        assert ModifiersAmong(raws) == ModifiersAmong(raws[1..]);
        var all := earlier + KeyTokens(raws);
        assert all[|earlier|] == token && (key.Some? ==> all[0] == key.value.0);
        if ParseKeyToken(token).Some? && key.None? {
          RefusesRightly(raws[1..], mods, Some((token, ParseKeyToken(token).value)));
          assert all == [token] + KeyTokens(raws[1..]);
        }
      }
    }
  }

  /** A text that is refused is refused for what is wrong with it. */
  lemma RefusedForWhatIsWrong(s: string)
    requires Parse(s).Err?
    ensures RightlyRefused(KeyTokens(Split(s)), ModifiersAmong(Split(s)), Parse(s).error)
  {
    RefusesRightly(Split(s), {}, None);
    assert [] + KeyTokens(Split(s)) == KeyTokens(Split(s)) && {} + ModifiersAmong(Split(s)) == ModifiersAmong(Split(s));
  }

  /** Letters of the Latin alphabet are lowered, and nothing else is. */
  lemma LoweringIsAscii(c: char)
    ensures var upper, lower := "ABCDEFGHIJKLMNOPQRSTUVWXYZ", "abcdefghijklmnopqrstuvwxyz";
            && |upper| == |lower| == 26
            && (forall i :: 0 <= i < 26 && upper[i] == c ==> LowerChar(c) == lower[i])
            && (c !in upper ==> LowerChar(c) == c)
  {
    var upper, lower := "ABCDEFGHIJKLMNOPQRSTUVWXYZ", "abcdefghijklmnopqrstuvwxyz";
    assert forall i :: 0 <= i < 26 ==> upper[i] as int == 'A' as int + i && lower[i] as int == 'a' as int + i;
    if 'A' <= c <= 'Z' {
      assert upper[c as int - 'A' as int] == c;
    }
  }

  /** The names of the modifiers, each platform's own included. */
  lemma ModifierNamesMean(token: string)
    ensures ModifierNamed(token) ==
              match token
              case "ctrl" => Some(Ctrl)
              case "control" => Some(Ctrl)
              case "alt" => Some(Alt)
              case "option" => Some(Alt)
              case "opt" => Some(Alt)
              case "altgr" => Some(AltGr)
              case "alt_gr" => Some(AltGr)
              case "ralt" => Some(AltGr)
              case "shift" => Some(Shift)
              case "super" => Some(Super)
              case "win" => Some(Super)
              case "windows" => Some(Super)
              case "cmd" => Some(Super)
              case "command" => Some(Super)
              case "meta" => Some(Super)
              case _ => None
  {
  }

  /** The names of the keys that move the caret. */
  lemma MovingNamesMean()
    ensures SpecialName(Up) == Some("up") && SpecialName(Down) == Some("down")
    ensures SpecialName(Left) == Some("left") && SpecialName(Right) == Some("right")
    ensures SpecialName(Home) == Some("home") && SpecialName(End) == Some("end")
    ensures SpecialName(PageUp) == Some("pageup") && SpecialName(PageDown) == Some("pagedown")
  {
  }

  /** The names of the keys that edit. */
  lemma EditingNamesMean()
    ensures SpecialName(Insert) == Some("insert") && SpecialName(Delete) == Some("delete")
    ensures SpecialName(Escape) == Some("escape") && SpecialName(Enter) == Some("enter")
    ensures SpecialName(Tab) == Some("tab") && SpecialName(Backspace) == Some("backspace")
  {
  }

  /** The names of the function keys. */
  lemma LowFunctionNamesMean()
    ensures SpecialName(F1) == Some("f1") && SpecialName(F2) == Some("f2") && SpecialName(F3) == Some("f3")
    ensures SpecialName(F4) == Some("f4") && SpecialName(F5) == Some("f5") && SpecialName(F6) == Some("f6")
  {
  }

  lemma HighFunctionNamesMean()
    ensures SpecialName(F7) == Some("f7") && SpecialName(F8) == Some("f8") && SpecialName(F9) == Some("f9")
    ensures SpecialName(F10) == Some("f10") && SpecialName(F11) == Some("f11") && SpecialName(F12) == Some("f12")
  {
  }

  function Shown(mods: Modifiers, m: Modifier, text: string): string {
    if m in mods then text else ""
  }

  /** Modifiers are printed in one order, whatever order they were written in, and then the key. */
  lemma PrintedInOrder(h: Hotkey)
    ensures Print(h) == Shown(h.mods, Ctrl, "ctrl+") + Shown(h.mods, Alt, "alt+") + Shown(h.mods, AltGr, "altgr+")
                        + Shown(h.mods, Shift, "shift+") + Shown(h.mods, Super, "super+") + KeyText(h.key)
  {
    var mods := h.mods;
    NamesInOrder();
    assert PrintMods(mods, []) == "";
    FirstShown(mods, (Super, "super"), [], "super+");
    FirstShown(mods, (Shift, "shift"), [(Super, "super")], "shift+");
    FirstShown(mods, (AltGr, "altgr"), [(Shift, "shift")] + [(Super, "super")], "altgr+");
    FirstShown(mods, (Alt, "alt"), [(AltGr, "altgr")] + ([(Shift, "shift")] + [(Super, "super")]), "alt+");
    FirstShown(mods, (Ctrl, "ctrl"), [(Alt, "alt")] + ([(AltGr, "altgr")] + ([(Shift, "shift")] + [(Super, "super")])),
               "ctrl+");
    hide PrintMods, Shown, KeyText, MODIFIER_NAMES;
    LeftToRight(Shown(mods, Ctrl, "ctrl+"), Shown(mods, Alt, "alt+"), Shown(mods, AltGr, "altgr+"),
                Shown(mods, Shift, "shift+"), Shown(mods, Super, "super+"), KeyText(h.key));
  }

  lemma NamesInOrder()
    ensures MODIFIER_NAMES
            == [(Ctrl, "ctrl")] + ([(Alt, "alt")] + ([(AltGr, "altgr")] + ([(Shift, "shift")] + [(Super, "super")])))
  {
  }

  lemma FirstShown(mods: Modifiers, first: (Modifier, string), rest: seq<(Modifier, string)>, text: string)
    requires first.1 + "+" == text
    ensures PrintMods(mods, [first] + rest) == Shown(mods, first.0, text) + PrintMods(mods, rest)
  {
    assert ([first] + rest)[1..] == rest;
  }

  lemma LeftToRight(a: string, b: string, c: string, d: string, e: string, f: string)
    ensures a + (b + (c + (d + (e + "")))) + f == a + b + c + d + e + f
  {
    assert e + "" == e;
    assert c + (d + e) == c + d + e;
    assert b + (c + d + e) == b + c + d + e;
    assert a + (b + c + d + e) == a + b + c + d + e;
  }

  // --- Canonical hotkeys ---------------------------------------------------

  const PRINTED: Modifiers := {Ctrl, Alt, AltGr, Shift, Super}

  /** Only modifiers that have names; a key that has one, the space, or a character that survives splitting,
      trimming and lower-casing. */
  predicate Canonical(h: Hotkey) {
    && h.mods <= PRINTED
    && match h.key
       case Char(c) => c == ' ' || (c != '+' && !IsSpace(c) && LowerChar(c) == c)
       case Special(k) => !k.Unbindable?
  }

  lemma {:induction false} ModifiersAmongPrinted(raws: seq<string>)
    ensures ModifiersAmong(raws) <= PRINTED
  {
    if raws != [] {
      ModifiersAmongPrinted(raws[1..]);
    }
  }

  /** No '+' and no surrounding space, and lower case. */
  predicate CleanToken(t: string) {
    t != "" && !IsSpace(t[0]) && '+' !in t && Lower(t) == t
  }

  lemma LowerTwice(s: string)
    ensures Lower(Lower(s)) == Lower(s)
  {
  }

  lemma {:induction false} SplitWithoutPlus(s: string)
    ensures forall piece <- Split(s) :: '+' !in piece
  {
    if s != [] {
      SplitWithoutPlus(s[1..]);
      var rest := Split(s[1..]);
      assert rest[0] in rest;
      forall piece <- Split(s)
        ensures '+' !in piece
      {
        assert piece == Split(s)[0] || piece in rest;
      }
    }
  }

  lemma CleanedToken(raw: string)
    requires '+' !in raw && Lower(Trim(raw)) != ""
    ensures CleanToken(Lower(Trim(raw)))
  {
    var trimmed := Trim(raw);
    var start := TrimStart(raw);
    assert trimmed[0] == start[0];
    assert forall c <- trimmed :: c in start && c in raw;
    LowerTwice(trimmed);
    assert forall i :: 0 <= i < |trimmed| ==> trimmed[i] in trimmed && LowerChar(trimmed[i]) != '+';
  }

  lemma {:induction false} KeyTokensClean(raws: seq<string>)
    requires forall raw <- raws :: '+' !in raw
    ensures forall t <- KeyTokens(raws) :: CleanToken(t)
  {
    if raws != [] {
      assert raws[0] in raws;
      if Lower(Trim(raws[0])) != "" {
        CleanedToken(raws[0]);
      }
      KeyTokensClean(raws[1..]);
    }
  }

  lemma CleanKeyIsCanonical(token: string)
    requires CleanToken(token) && ParseKeyToken(token).Some?
    ensures Canonical(Hotkey({}, ParseKeyToken(token).value))
  {
    if |token| == 1 {
      assert token[0] in token && Lower(token)[0] == LowerChar(token[0]);
    }
  }

  /** Whatever is read is canonical. */
  lemma ReadIsCanonical(s: string)
    ensures Parse(s).Ok? ==> Canonical(Parse(s).value)
  {
    hide ModifierNamed, ParseKeyToken, CleanToken, Parse;
    if Parse(s).Ok? {
      MeansExactly(s, Parse(s).value);
      ModifiersAmongPrinted(Split(s));
      SplitWithoutPlus(s);
      KeyTokensClean(Split(s));
      var token := KeyTokens(Split(s))[0];
      assert token in KeyTokens(Split(s));
      CleanKeyIsCanonical(token);
    }
  }

  // --- Printing, then reading ----------------------------------------------

  lemma {:induction false} SplitPiece(a: string, rest: string)
    requires '+' !in a
    ensures Split(a + "+" + rest) == [a] + Split(rest)
  {
    var s := a + "+" + rest;
    if a == [] {
      assert s[0] == '+' && s[1..] == rest;
    } else {
      assert s[0] == a[0] && s[1..] == a[1..] + "+" + rest;
      assert a[0] in a;
      SplitPiece(a[1..], rest);
      assert ([a[1..]] + Split(rest))[1..] == Split(rest);
      assert a == [a[0]] + a[1..];
    }
  }

  lemma {:induction false} SplitWhole(a: string)
    requires '+' !in a
    ensures Split(a) == [a]
  {
    if a != [] {
      assert a[0] in a;
      SplitWhole(a[1..]);
      assert a == [a[0]] + a[1..];
    }
  }

  /** Nothing to trim and nothing to lower. */
  predicate Plain(t: string) {
    t != "" && '+' !in t && forall i :: 0 <= i < |t| ==> !IsSpace(t[i]) && LowerChar(t[i]) == t[i]
  }

  lemma PlainUnchanged(t: string)
    requires Plain(t)
    ensures Trim(t) == t && Lower(t) == t
  {
    assert TrimStart(t) == t;
    assert TrimEnd(t) == t;
  }

  /** Each name is plain, and reads as its own modifier. */
  ghost predicate Named(names: seq<(Modifier, string)>) {
    forall n <- names :: Plain(n.1) && ModifierNamed(n.1) == Some(n.0)
  }

  lemma ModifierNamesPlain(i: nat)
    requires i < 5
    ensures Plain(MODIFIER_NAMES[i].1)
  {
  }

  lemma ModifierNamesNamed(i: nat)
    requires i < 5
    ensures ModifierNamed(MODIFIER_NAMES[i].1) == Some(MODIFIER_NAMES[i].0)
  {
  }

  lemma ModifierNamesAreNames()
    ensures Named(MODIFIER_NAMES)
  {
    hide Plain, ModifierNamed;
    forall n <- MODIFIER_NAMES
      ensures Plain(n.1) && ModifierNamed(n.1) == Some(n.0)
    {
      var i :| 0 <= i < |MODIFIER_NAMES| && MODIFIER_NAMES[i] == n;
      ModifierNamesPlain(i);
      ModifierNamesNamed(i);
    }
  }

  function ChosenFrom(mods: Modifiers, names: seq<(Modifier, string)>): Modifiers {
    if names == [] then {}
    else (if names[0].0 in mods then {names[0].0} else {}) + ChosenFrom(mods, names[1..])
  }

  lemma {:induction false} ModifiersReadBack(mods: Modifiers, names: seq<(Modifier, string)>, text: string)
    requires Named(names)
    ensures var raws := Split(PrintMods(mods, names) + text);
            && KeyTokens(raws) == KeyTokens(Split(text))
            && ModifiersAmong(raws) == ModifiersAmong(Split(text)) + ChosenFrom(mods, names)
    decreases names
  {
    hide Plain, ModifierNamed, Trim, Lower, Split;
    if names == [] {
      assert PrintMods(mods, names) + text == text;
    } else {
      var name := names[0].1;
      var rest := PrintMods(mods, names[1..]) + text;
      assert names[0] in names;
      ModifiersReadBack(mods, names[1..], text);
      if names[0].0 in mods {
        NamePrefix(name, rest);
        assert PrintMods(mods, names) + text == name + "+" + rest;
        assert ModifiersAmong([name] + Split(rest)) == {names[0].0} + ModifiersAmong(Split(rest));
      } else {
        assert PrintMods(mods, names) + text == rest;
      }
    }
  }

  lemma NamePrefix(name: string, rest: string)
    requires Plain(name) && ModifierNamed(name).Some?
    ensures Split(name + "+" + rest) == [name] + Split(rest)
    ensures KeyTokens([name] + Split(rest)) == KeyTokens(Split(rest))
    ensures ModifiersAmong([name] + Split(rest)) == {ModifierNamed(name).value} + ModifiersAmong(Split(rest))
  {
    hide ModifierNamed, Trim, Lower;
    SplitPiece(name, rest);
    PlainUnchanged(name);
    assert ([name] + Split(rest))[1..] == Split(rest);
  }

  predicate LowFunctionKey(key: SpecialKey) { key in {F1, F2, F3, F4, F5, F6} }

  predicate HighFunctionKey(key: SpecialKey) { key in {F7, F8, F9, F10, F11, F12} }

  lemma EditingNamesFound(key: SpecialKey)
    requires !key.Unbindable? && !LowFunctionKey(key) && !HighFunctionKey(key)
    ensures SpecialNamed(SpecialName(key).value) == Some(key)
  {
  }

  lemma LowFunctionNamesFound(key: SpecialKey)
    requires LowFunctionKey(key)
    ensures SpecialNamed(SpecialName(key).value) == Some(key)
  {
  }

  lemma HighFunctionNamesFound(key: SpecialKey)
    requires HighFunctionKey(key)
    ensures SpecialNamed(SpecialName(key).value) == Some(key)
  {
  }

  const ALIASES := {"space", "spacebar", "esc", "return", "del", "ins", "pgup", "page_up", "pgdn", "page_down"}

  predicate MovingKey(key: SpecialKey) {
    key in {Home, End, PageUp, PageDown, Up, Down, Left, Right}
  }

  lemma MovingNamesArePlain(key: SpecialKey)
    requires MovingKey(key)
    ensures var name := SpecialName(key).value; |name| >= 2 && Plain(name) && name != "none"
  {
  }

  lemma EditingNamesArePlain(key: SpecialKey)
    requires !key.Unbindable? && !LowFunctionKey(key) && !HighFunctionKey(key) && !MovingKey(key)
    ensures var name := SpecialName(key).value; |name| >= 2 && Plain(name) && name != "none"
  {
  }

  lemma FunctionNamesArePlain(key: SpecialKey)
    requires LowFunctionKey(key) || HighFunctionKey(key)
    ensures var name := SpecialName(key).value; |name| >= 2 && Plain(name) && name != "none"
  {
  }

  lemma NamesAreNoModifier(key: SpecialKey)
    requires !key.Unbindable?
    ensures ModifierNamed(SpecialName(key).value) == None
  {
  }

  lemma NamesAreNoAlias(key: SpecialKey)
    requires !key.Unbindable?
    ensures SpecialName(key).value !in ALIASES
  {
  }

  lemma NamedExactlyWhenBindable(key: SpecialKey)
    ensures SpecialName(key).Some? <==> !key.Unbindable?
  {
  }

  lemma SpecialNamesReadBack(key: SpecialKey)
    requires !key.Unbindable?
    ensures var name := SpecialName(key).value;
            Plain(name) && name != "none" && ModifierNamed(name) == None && ParseKeyToken(name) == Some(Special(key))
    ensures KeyText(Special(key)) == SpecialName(key).value
  {
    NamedExactlyWhenBindable(key);
    hide SpecialName, SpecialNamed, ModifierNamed, Plain;
    NamesAreNoModifier(key);
    NamesAreNoAlias(key);
    if LowFunctionKey(key) {
      LowFunctionNamesFound(key);
      FunctionNamesArePlain(key);
    } else if HighFunctionKey(key) {
      HighFunctionNamesFound(key);
      FunctionNamesArePlain(key);
    } else {
      EditingNamesFound(key);
      if MovingKey(key) {
        MovingNamesArePlain(key);
      } else {
        EditingNamesArePlain(key);
      }
    }
  }

  lemma CharReadsBack(c: char)
    requires Canonical(Hotkey({}, Char(c)))
    ensures var text := KeyText(Char(c));
            Plain(text) && text != "none" && ModifierNamed(text) == None && ParseKeyToken(text) == Some(Char(c))
  {
  }

  lemma KeyReadBack(key: HotkeyKey)
    requires Canonical(Hotkey({}, key))
    ensures var text := KeyText(key);
            Plain(text) && text != "none" && ModifierNamed(text) == None && ParseKeyToken(text) == Some(key)
  {
    hide SpecialName, ParseKeyToken, ModifierNamed, Plain, KeyText;
    match key
    case Char(c) => CharReadsBack(c);
    case Special(k) => SpecialNamesReadBack(k);
  }

  /** Printing and reading back gives the same hotkey exactly when it is canonical. */
  lemma RoundTripExactlyWhenCanonical(h: Hotkey)
    ensures Parse(Print(h)) == Ok(h) <==> Canonical(h)
  {
    ReadIsCanonical(Print(h));
    if Canonical(h) {
      CanonicalReadsBack(h);
    }
  }

  lemma CanonicalReadsBack(h: Hotkey)
    requires Canonical(h)
    ensures Parse(Print(h)) == Ok(h)
  {
    hide Plain, ModifierNamed, ParseKeyToken, Trim, Lower, KeyText, Split, Parse, PrintMods;
    var text := KeyText(h.key);
    ModifierNamesAreNames();
    ModifiersReadBack(h.mods, MODIFIER_NAMES, text);
    KeyReadBack(h.key);
    KeyAlone(text);
    AllPrinted(h.mods);
    MeansExactly(Print(h), h);
  }

  lemma KeyAlone(text: string)
    requires Plain(text) && ModifierNamed(text) == None
    ensures KeyTokens(Split(text)) == [text] && ModifiersAmong(Split(text)) == {}
  {
    SplitWhole(text);
    PlainUnchanged(text);
    assert [text][1..] == [];
  }

  lemma AllPrinted(mods: Modifiers)
    requires mods <= PRINTED
    ensures ChosenFrom(mods, MODIFIER_NAMES) == mods
  {
    var names := MODIFIER_NAMES;
    assert ChosenFrom(mods, names[5..]) == {};
    assert names[4..][1..] == names[5..] && names[3..][1..] == names[4..] && names[2..][1..] == names[3..];
    assert ChosenFrom(mods, names[3..]) == mods * {Shift, Super};
    assert names[1..][1..] == names[2..];
    assert ChosenFrom(mods, names[1..]) == mods * {Alt, AltGr, Shift, Super};
  }

  /** Every text that reads as a hotkey prints as one that reads the same: modifiers in any order, aliases,
      repeated or empty tokens, spaces, the space key, any character. */
  lemma ReadPrintRead(s: string)
    ensures Parse(s).Ok? ==> Parse(Print(Parse(s).value)) == Parse(s)
  {
    if Parse(s).Ok? {
      ReadIsCanonical(s);
      RoundTripExactlyWhenCanonical(Parse(s).value);
    }
  }

  // --- Optional hotkeys ----------------------------------------------------

  /** No printed hotkey is empty, needs trimming, or reads as "none". */
  lemma PrintedIsPlain(h: Hotkey)
    requires Canonical(h)
    ensures Print(h) != "" && Trim(Print(h)) == Print(h) && Lower(Print(h)) == Print(h) && Print(h) != "none"
  {
    hide Plain, ModifierNamed, ParseKeyToken, Trim, Lower, KeyText;
    KeyReadBack(h.key);
    ModifierNamesAreNames();
    PrintedCharacters(h.mods, MODIFIER_NAMES, KeyText(h.key));
    UnchangedCharacters(Print(h));
    if PrintMods(h.mods, MODIFIER_NAMES) == "" {
      assert "" + KeyText(h.key) == KeyText(h.key);
    } else {
      assert '+' in PrintMods(h.mods, MODIFIER_NAMES);
      assert '+' in Print(h);
      assert '+' !in "none";
    }
  }

  /** No space and no capital anywhere. */
  predicate Unspaced(s: string) {
    forall i :: 0 <= i < |s| ==> !IsSpace(s[i]) && LowerChar(s[i]) == s[i]
  }

  lemma UnchangedCharacters(s: string)
    requires Unspaced(s)
    ensures Trim(s) == s && Lower(s) == s
  {
  }

  lemma {:induction false} PrintedCharacters(mods: Modifiers, names: seq<(Modifier, string)>, text: string)
    requires Named(names) && Plain(text)
    ensures Unspaced(PrintMods(mods, names) + text) && PrintMods(mods, names) + text != ""
    ensures PrintMods(mods, names) == "" || '+' in PrintMods(mods, names)
    decreases names
  {
    hide ModifierNamed;
    if names == [] {
      assert PrintMods(mods, names) + text == text;
    } else {
      assert names[0] in names;
      PrintedCharacters(mods, names[1..], text);
      var rest := PrintMods(mods, names[1..]) + text;
      if names[0].0 in mods {
        assert PrintMods(mods, names) + text == names[0].1 + "+" + rest;
        assert PrintMods(mods, names)[|names[0].1|] == '+';
      } else {
        assert PrintMods(mods, names) == PrintMods(mods, names[1..]);
      }
    }
  }

  /** A binding, or its absence, saved and loaded again is the same exactly when it is absent or canonical. */
  lemma OptionalRoundTrip(v: Option<Hotkey>)
    ensures LoadOptional(SaveOptional(v)) == Ok(v) <==> v.None? || Canonical(v.value)
  {
    if v.Some? {
      var text := Print(v.value);
      if Canonical(v.value) {
        PrintedIsPlain(v.value);
        RoundTripExactlyWhenCanonical(v.value);
      }
      ReadIsCanonical(Trim(text));
    }
  }
}
