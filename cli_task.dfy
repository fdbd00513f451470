/**
 * The console of cli_task.c: the string checks and conversions used by the setting
 * commands, and the key handling of console_task, which switches between presence mode
 * and setting mode and edits the command line in a fixed 50-byte buffer.
 */
module CliTask {
  import opened Wrappers
  import opened RadarPresence

  const MAX_INPUT_LENGTH := 50

  const ENTER_KEY := 0x0D
  const ESC_KEY := 0x1B
  const BACKSPACE_KEY := 0x08

  const ENABLE_STRING := "enable"
  const DISABLE_STRING := "disable"

  const MACRO_ONLY_STRING := "macro_only"
  const MICRO_ONLY_STRING := "micro_only"
  const MICRO_IF_MACRO_STRING := "micro_if_macro"
  const MICRO_AND_MACRO_STRING := "micro_and_macro"

  // ---------------------------------------------------------------- string helpers
  // C strings are compared with strcmp; here they are the character sequences before
  // their terminator, and strcmp(a, b) == 0 is a == b.

  /** check_bool_validation: the value is one of the two accepted words. */
  function CheckBoolValidation(value: string, enable: string, disable: string): (ok: bool)
    ensures ok <==> BoolName(true, enable, disable) == value || BoolName(false, enable, disable) == value
  {
    value == enable || value == disable
  }

  /** string_to_bool: true for the enable word; the caller has validated the value. */
  function StringToBool(value: string, enable: string, disable: string): (b: bool)
    requires CheckBoolValidation(value, enable, disable)
    ensures BoolName(b, enable, disable) == value
    ensures value != enable ==> !b
  {
    value == enable
  }

  /** The word that stands for a flag value. */
  function BoolName(b: bool, enable: string, disable: string): string {
    if b then enable else disable
  }

  /** check_mode_validation: the value names one of the four modes. */
  function CheckModeValidation(mode: string): (ok: bool)
    ensures ok ==> ModeName(StringToMode(mode)) == mode
    ensures !ok ==> forall m :: Supported(m) ==> ModeName(m) != mode
  {
    mode == MACRO_ONLY_STRING || mode == MICRO_ONLY_STRING
    || mode == MICRO_IF_MACRO_STRING || mode == MICRO_AND_MACRO_STRING
  }

  /** string_to_mode: the named mode; any other string falls back to macro-only. */
  function StringToMode(mode: string): (m: PresenceMode)
    ensures Supported(m)
  {
    if mode == MACRO_ONLY_STRING then MacroOnly
    else if mode == MICRO_ONLY_STRING then MicroOnly
    else if mode == MICRO_IF_MACRO_STRING then MicroIfMacro
    else if mode == MICRO_AND_MACRO_STRING then MicroAndMacro
    else MacroOnly
  }

  /** The console name of each supported mode. */
  function ModeName(m: PresenceMode): string
    requires Supported(m)
  {
    match m
    case MacroOnly => MACRO_ONLY_STRING
    case MicroOnly => MICRO_ONLY_STRING
    case MicroIfMacro => MICRO_IF_MACRO_STRING
    case MicroAndMacro => MICRO_AND_MACRO_STRING
  }

  /** Every mode name is accepted and converts back to its mode. */
  lemma ModeNamesRoundTrip(m: PresenceMode)
    requires Supported(m)
    ensures CheckModeValidation(ModeName(m))
    ensures StringToMode(ModeName(m)) == m
  {
  }

  /** A string is accepted exactly when it is the name of a mode, namely of the mode it
      converts to; every other string converts to macro-only. */
  lemma ModeValidationIsExactlyTheNames(s: string)
    ensures CheckModeValidation(s) <==> exists m :: Supported(m) && ModeName(m) == s
    ensures CheckModeValidation(s) ==> ModeName(StringToMode(s)) == s
    ensures !CheckModeValidation(s) ==> StringToMode(s) == MacroOnly
  {
    if CheckModeValidation(s) {
      assert Supported(StringToMode(s)) && ModeName(StringToMode(s)) == s;
    }
  }

  /** The four names give four different modes. */
  lemma ModeNamesAreDistinct(s: string, t: string)
    requires CheckModeValidation(s) && CheckModeValidation(t) && s != t
    ensures StringToMode(s) != StringToMode(t)
  {
  }

  /** A flag written as its word converts back to the flag, as long as the two words
      differ; an accepted word is the word of the flag it converts to. */
  lemma BoolNamesRoundTrip(b: bool, value: string, enable: string, disable: string)
    requires enable != disable
    ensures CheckBoolValidation(BoolName(b, enable, disable), enable, disable)
    ensures StringToBool(BoolName(b, enable, disable), enable, disable) == b
    ensures CheckBoolValidation(value, enable, disable) ==>
      BoolName(StringToBool(value, enable, disable), enable, disable) == value
  {
  }

  // ---------------------------------------------------------------- console key handling

  /** What the loop does besides updating its own state. */
  datatype KeyEffect =
    | NoEffect
    | DetachPresenceCallback           // xensiv_radar_presence_set_callback(handle, NULL, NULL)
    | AttachPresenceCallback           // the presence callback is installed again
    | SubmitCommand(input: seq<char>)  // the buffer handed to the command interpreter

  /** The loop's variables: setting_mode, cInputIndex and the contents of pcInputString. */
  datatype Console = Console(settingMode: bool, index: int, input: seq<char>)

  /** The character a key code becomes when stored into the char buffer. */
  function KeyChar(c: int): char {
    (c % 256) as char
  }

  const NUL: char := 0 as char

  /** The buffer after memset(pcInputString, 0x00, MAX_INPUT_LENGTH). */
  function EmptyInput(): (b: seq<char>)
    ensures |b| == MAX_INPUT_LENGTH && forall i :: 0 <= i < |b| ==> b[i] == NUL
  {
    seq(MAX_INPUT_LENGTH, _ => NUL)
  }

  /** The buffer has its fixed size and the index stays within it: every write is in bounds. */
  predicate Inv(s: Console) {
    |s.input| == MAX_INPUT_LENGTH && 0 <= s.index <= MAX_INPUT_LENGTH
  }

  /** One pass of the console loop on the key `c`. */
  function Step(s: Console, c: int): (r: (Console, KeyEffect))
    requires Inv(s)
    ensures Inv(r.0)
  {
    if !s.settingMode then
      if c == ENTER_KEY then (Console(true, 0, EmptyInput()), DetachPresenceCallback)
      else (s, NoEffect)
    else if c == ESC_KEY then (Console(false, 0, EmptyInput()), AttachPresenceCallback)
    else if c == ENTER_KEY then (Console(true, 0, EmptyInput()), SubmitCommand(s.input))
    else if c == BACKSPACE_KEY then
      if s.index > 0 then (s.(index := s.index - 1, input := s.input[s.index - 1 := ' ']), NoEffect)
      else (s, NoEffect)
    else if s.index < MAX_INPUT_LENGTH then
      (s.(index := s.index + 1, input := s.input[s.index := KeyChar(c)]), NoEffect)
    else (s, NoEffect)
  }

  /** The loop run over a finite sequence of keys, with the effects in order. */
  function StepAll(s: Console, keys: seq<int>): (r: (Console, seq<KeyEffect>))
    requires Inv(s)
    ensures Inv(r.0) && |r.1| == |keys|
    decreases |keys|
  {
    if keys == [] then (s, [])
    else
      var before := StepAll(s, keys[..|keys| - 1]);
      var after := Step(before.0, keys[|keys| - 1]);
      (after.0, before.1 + [after.1])
  }

  /** The text typed so far. */
  function Line(s: Console): seq<char>
    requires Inv(s)
  {
    s.input[..s.index]
  }

  /**
   * The buffer layout the loop keeps: the typed text, then the blanks backspace left
   * behind up to `pad`, then zeros.
   */
  predicate Layout(s: Console, pad: int) {
    && Inv(s) && s.index <= pad <= MAX_INPUT_LENGTH
    && (forall i :: s.index <= i < pad ==> s.input[i] == ' ')
    && (forall i :: pad <= i < MAX_INPUT_LENGTH ==> s.input[i] == NUL)
  }

  /** Where the blanks end after the key `c`. */
  function NextPad(s: Console, pad: int, c: int): int
    requires Inv(s)
  {
    if !s.settingMode then (if c == ENTER_KEY then 0 else pad)
    else if c == ESC_KEY || c == ENTER_KEY then 0
    else if c == BACKSPACE_KEY then pad
    else if s.index < MAX_INPUT_LENGTH && s.index + 1 > pad then s.index + 1
    else pad
  }

  /** Every key keeps the layout. */
  lemma StepKeepsLayout(s: Console, pad: int, c: int)
    requires Layout(s, pad)
    ensures Layout(Step(s, c).0, NextPad(s, pad, c))
  {
  }

  /** A line editor on the typed text alone: backspace drops the last character, any
      other key is appended while there is room. */
  function EditLine(line: seq<char>, c: int): seq<char> {
    if c == BACKSPACE_KEY then (if |line| == 0 then line else line[..|line| - 1])
    else if |line| < MAX_INPUT_LENGTH then line + [KeyChar(c)]
    else line
  }

  function EditAll(line: seq<char>, keys: seq<int>): seq<char>
    decreases |keys|
  {
    if keys == [] then line else EditLine(EditAll(line, keys[..|keys| - 1]), keys[|keys| - 1])
  }

  /** Outside setting mode every key but ENTER is ignored; ENTER enters setting mode with
      an empty buffer and detaches the presence callback. */
  lemma PresenceModeOnlyReactsToEnter(s: Console, c: int)
    requires Inv(s) && !s.settingMode
    ensures c != ENTER_KEY ==> Step(s, c) == (s, NoEffect)
    ensures c == ENTER_KEY ==> Step(s, c) == (Console(true, 0, EmptyInput()), DetachPresenceCallback)
  {
  }

  /** In setting mode, ESC leaves it and ENTER submits the whole buffer; both empty the
      buffer and reset the index. Any other key edits the typed text as EditLine does. */
  lemma SettingModeKeys(s: Console, c: int)
    requires Inv(s) && s.settingMode
    ensures c == ESC_KEY ==> Step(s, c) == (Console(false, 0, EmptyInput()), AttachPresenceCallback)
    ensures c == ENTER_KEY ==> Step(s, c) == (Console(true, 0, EmptyInput()), SubmitCommand(s.input))
    ensures c != ESC_KEY && c != ENTER_KEY ==>
      Step(s, c).0.settingMode && Step(s, c).1 == NoEffect && Line(Step(s, c).0) == EditLine(Line(s), c)
  {
    if c != ESC_KEY && c != ENTER_KEY && c != BACKSPACE_KEY && s.index < MAX_INPUT_LENGTH {
      assert Line(Step(s, c).0) == Line(s) + [KeyChar(c)];
    }
  }

  /** A run of editing keys in setting mode leaves exactly the text the line editor
      computes, and produces no effect. */
  lemma {:induction false} EditingKeysFollowLineEditor(s: Console, keys: seq<int>)
    requires Inv(s) && s.settingMode
    requires forall k :: 0 <= k < |keys| ==> keys[k] != ESC_KEY && keys[k] != ENTER_KEY
    ensures StepAll(s, keys).0.settingMode
    ensures Line(StepAll(s, keys).0) == EditAll(Line(s), keys)
    ensures forall k :: 0 <= k < |keys| ==> StepAll(s, keys).1[k] == NoEffect
    decreases |keys|
  {
    if keys != [] {
      var init := keys[..|keys| - 1];
      EditingKeysFollowLineEditor(s, init);
      SettingModeKeys(StepAll(s, init).0, keys[|keys| - 1]);
    }
  }

  /** The text the command interpreter reads from a buffer: the characters before the
      first NUL, or None when the buffer holds no NUL and the read runs past its end. */
  function CString(b: seq<char>): (r: Option<seq<char>>)
    ensures r.Some? ==> |r.value| < |b| && r.value == b[..|r.value|] && b[|r.value|] == NUL
    ensures r.Some? ==> forall i :: 0 <= i < |r.value| ==> r.value[i] != NUL
    ensures r.None? <==> forall i :: 0 <= i < |b| ==> b[i] != NUL
    decreases |b|
  {
    if b == [] then None
    else if b[0] == NUL then Some([])
    else match CString(b[1..])
      case None => None
      case Some(rest) => Some([b[0]] + rest)
  }

  /**
   * With fewer than 50 characters typed (none of them NUL), ENTER hands the interpreter
   * the typed text followed by the blanks backspace left.
   */
  lemma SubmittedTextIsTypedLine(s: Console, pad: int)
    requires Layout(s, pad) && pad < MAX_INPUT_LENGTH
    requires forall i :: 0 <= i < s.index ==> s.input[i] != NUL
    ensures CString(s.input) == Some(Line(s) + seq(pad - s.index, _ => ' '))
  {
    var text := Line(s) + seq(pad - s.index, _ => ' ');
    assert s.input == text + s.input[pad..];
    PrefixBeforeNul(s.input, text);
  }

  /** A sequence whose first NUL follows `text` reads as `text`. */
  lemma {:induction false} PrefixBeforeNul(b: seq<char>, text: seq<char>)
    requires |text| < |b| && b[..|text|] == text && b[|text|] == NUL
    requires forall i :: 0 <= i < |text| ==> text[i] != NUL
    ensures CString(b) == Some(text)
    decreases |text|
  {
    if text != [] {
      assert b[1..][..|text| - 1] == text[1..];
      PrefixBeforeNul(b[1..], text[1..]);
    }
  }

  /**
   * With all 50 positions typed the buffer holds no terminator: ENTER then hands the
   * interpreter a string that runs past the end of pcInputString.
   */
  lemma FullLineHasNoTerminator(s: Console)
    requires Inv(s) && s.index == MAX_INPUT_LENGTH
    requires forall i :: 0 <= i < s.index ==> s.input[i] != NUL
    ensures CString(s.input).None?
  {
  }

  /**
   * Backspace blanks the erased position rather than ending the string there: entering
   * setting mode, typing "ab" and erasing the "b" leaves the typed text "a", and ENTER
   * would hand the interpreter "a " with a trailing blank.
   */
  lemma ErasedCharacterBecomesBlank()
    ensures
      var s := StepAll(Console(false, 0, EmptyInput()), [ENTER_KEY, 'a' as int, 'b' as int, BACKSPACE_KEY]).0;
      s.settingMode && Line(s) == "a" && CString(s.input) == Some("a ")
  {
    var keys := [ENTER_KEY, 'a' as int, 'b' as int, BACKSPACE_KEY];
    var s0 := Console(false, 0, EmptyInput());
    var s1 := Console(true, 0, EmptyInput());
    var s2 := Console(true, 1, EmptyInput()[0 := 'a']);
    var s3 := Console(true, 2, s2.input[1 := 'b']);
    var s4 := Console(true, 1, s3.input[1 := ' ']);
    assert keys[..3][..2][..1] == [ENTER_KEY] && keys[..3][..2] == keys[..2] && keys[..3] == keys[..3];
    assert StepAll(s0, keys[..1]).0 == s1;
    assert StepAll(s0, keys[..2]).0 == s2;
    assert StepAll(s0, keys[..3]).0 == s3;
    assert StepAll(s0, keys).0 == s4;
    assert s4.input[..2] == "a ";
    PrefixBeforeNul(s4.input, "a ");
  }

  /** The loop's state, updated in place; `padEnd` tracks where backspace's blanks end. */
  class ConsoleTask {
    var settingMode: bool
    var inputIndex: int
    const inputString: array<char>
    ghost var padEnd: int

    function Model(): Console
      reads this, inputString
    {
      Console(settingMode, inputIndex, inputString[..])
    }

    ghost predicate Valid()
      reads this, inputString
    {
      Layout(Model(), padEnd)
    }

    /** The static buffer starts zeroed, with index 0 in presence mode. */
    constructor ()
      ensures Valid() && Model() == Console(false, 0, EmptyInput())
    {
      settingMode := false;
      inputIndex := 0;
      inputString := new char[MAX_INPUT_LENGTH](_ => NUL);
      padEnd := 0;
      new;
      assert inputString[..] == EmptyInput();
    }

    /** memset(pcInputString, 0x00, MAX_INPUT_LENGTH) with the index reset. */
    method ClearInput()
      requires inputString.Length == MAX_INPUT_LENGTH
      modifies this, inputString
      ensures inputString[..] == EmptyInput() && inputIndex == 0 && padEnd == 0
      ensures settingMode == old(settingMode)
    {
      inputIndex := 0;
      forall i | 0 <= i < MAX_INPUT_LENGTH {
        inputString[i] := NUL;
      }
      padEnd := 0;
    }

    /** One pass of the console loop's body on the key `c` read by getchar. */
    method HandleKey(c: int) returns (effect: KeyEffect)
      requires Valid()
      modifies this, inputString
      ensures (Model(), effect) == Step(old(Model()), c)
      ensures Valid()
    {
      ghost var m := Model();
      ghost var pad := NextPad(m, padEnd, c);
      StepKeepsLayout(m, padEnd, c);
      effect := NoEffect;
      if !settingMode {
        if c == ENTER_KEY {
          ClearInput();
          settingMode := true;
          effect := DetachPresenceCallback;
        }
      } else {
        if c == ESC_KEY {
          ClearInput();
          settingMode := false;
          effect := AttachPresenceCallback;
        } else if c == ENTER_KEY {
          effect := SubmitCommand(inputString[..]);
          ClearInput();
        } else {
          if c == BACKSPACE_KEY {
            if inputIndex > 0 {
              inputIndex := inputIndex - 1;
              inputString[inputIndex] := ' ';
            }
          } else {
            if inputIndex < MAX_INPUT_LENGTH {
              inputString[inputIndex] := KeyChar(c);
              inputIndex := inputIndex + 1;
            }
          }
        }
      }
      padEnd := pad;
    }

    /** The console loop on a finite sequence of keys. */
    method ProcessKeys(keys: seq<int>) returns (effects: seq<KeyEffect>)
      requires Valid()
      modifies this, inputString
      ensures (Model(), effects) == StepAll(old(Model()), keys)
      ensures Valid()
    {
      ghost var m := Model();
      effects := [];
      var i := 0;
      while i < |keys|
        invariant 0 <= i <= |keys|
        invariant Valid()
        invariant (Model(), effects) == StepAll(m, keys[..i])
      {
        assert keys[..i + 1][..i] == keys[..i];
        var effect := HandleKey(keys[i]);
        effects := effects + [effect];
        i := i + 1;
      }
      assert keys[..i] == keys;
    }
  }
}
