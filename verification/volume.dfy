/**
 * The text handling around the sound-server utility: reading a percentage
 * out of its volume report, classifying its mute report, and choosing the
 * body and hints of the on-screen notification.
 */
module Volume {
  import opened XTypes

  datatype VolumeAction = Up | Down | ToggleMute

  /** Unicode White_Space, the separator set of `str::split_whitespace`. */
  predicate IsWhitespace(c: char) {
    || ('\t' <= c <= '\r') || c == ' ' || c == '\U{0085}' || c == '\U{00A0}' || c == '\U{1680}'
    || ('\U{2000}' <= c <= '\U{200A}') || c == '\U{2028}' || c == '\U{2029}'
    || c == '\U{202F}' || c == '\U{205F}' || c == '\U{3000}'
  }

  predicate NoWhitespace(s: string) {
    forall i :: 0 <= i < |s| ==> !IsWhitespace(s[i])
  }

  /** The length of the run of non-whitespace characters that starts `s`. */
  function WordLength(s: string): (n: nat)
    ensures n <= |s|
    ensures NoWhitespace(s[..n])
    ensures n < |s| ==> IsWhitespace(s[n])
  {
    if s == [] || IsWhitespace(s[0]) then 0
    else
      var n := 1 + WordLength(s[1..]);
      assert s[..n] == [s[0]] + s[1..][..n - 1];
      n
  }

  /** `str::split_whitespace`: the maximal non-empty runs of non-whitespace, in order. */
  function Tokens(s: string): (r: seq<string>)
    ensures forall t :: t in r ==> t != [] && NoWhitespace(t)
    decreases |s|
  {
    if s == [] then []
    else if IsWhitespace(s[0]) then Tokens(s[1..])
    else
      var n := WordLength(s);
      [s[..n]] + Tokens(s[n..])
  }

  /** A non-empty text without whitespace is a single token. */
  lemma TokensOfWord(t: string)
    requires t != [] && NoWhitespace(t)
    ensures Tokens(t) == [t]
  {
    assert !IsWhitespace(t[0]);
    var n := WordLength(t);
    if n < |t| {
      assert false;
    }
    assert t[..n] == t;
    assert t[n..] == [];
  }

  /** The non-whitespace characters of `s`, in order. */
  function WithoutWhitespace(s: string): (r: string)
    ensures NoWhitespace(r)
  {
    if s == [] then []
    else (if IsWhitespace(s[0]) then [] else [s[0]]) + WithoutWhitespace(s[1..])
  }

  /** The tokens written one after the other. */
  function Join(tokens: seq<string>): string {
    if tokens == [] then [] else tokens[0] + Join(tokens[1..])
  }

  lemma {:induction false} WithoutWhitespaceAppend(a: string, b: string)
    ensures WithoutWhitespace(a + b) == WithoutWhitespace(a) + WithoutWhitespace(b)
  {
    if a == [] {
      assert a + b == b;
    } else {
      assert (a + b)[0] == a[0];
      assert (a + b)[1..] == a[1..] + b;
      WithoutWhitespaceAppend(a[1..], b);
    }
  }

  lemma {:induction false} WithoutWhitespaceOfWord(w: string)
    requires NoWhitespace(w)
    ensures WithoutWhitespace(w) == w
  {
    if w != [] {
      assert NoWhitespace(w[1..]);
      WithoutWhitespaceOfWord(w[1..]);
    }
  }

  /** Tokenising loses and reorders nothing: the tokens joined are the text without its whitespace. */
  lemma {:induction false} TokensJoin(s: string)
    ensures Join(Tokens(s)) == WithoutWhitespace(s)
    decreases |s|
  {
    if s != [] {
      if IsWhitespace(s[0]) {
        TokensJoin(s[1..]);
      } else {
        var n := WordLength(s);
        var ts := Tokens(s);
        assert ts == [s[..n]] + Tokens(s[n..]);
        assert ts[1..] == Tokens(s[n..]);
        TokensJoin(s[n..]);
        assert s == s[..n] + s[n..];
        WithoutWhitespaceAppend(s[..n], s[n..]);
        WithoutWhitespaceOfWord(s[..n]);
      }
    }
  }

  /** A word ends at the first whitespace character, wherever the text goes on after it. */
  lemma {:induction false} WordLengthStopsAt(a: string, t: string)
    requires t != [] && IsWhitespace(t[0])
    ensures WordLength(a + t) == WordLength(a)
  {
    if a == [] {
      assert a + t == t;
    } else {
      assert (a + t)[0] == a[0];
      if !IsWhitespace(a[0]) {
        assert (a + t)[1..] == a[1..] + t;
        WordLengthStopsAt(a[1..], t);
      }
    }
  }

  /**
   * No token spans whitespace: cutting the text at a whitespace character cuts
   * its token list at the same place. With TokensOfWord, every token is a
   * maximal run of non-whitespace.
   */
  lemma {:induction false} TokensSplit(a: string, c: char, b: string)
    requires IsWhitespace(c)
    ensures Tokens(a + [c] + b) == Tokens(a) + Tokens(b)
    decreases |a|
  {
    var s := a + [c] + b;
    if a == [] {
      assert s == [c] + b;
      assert s[1..] == b;
    } else if IsWhitespace(a[0]) {
      assert s[0] == a[0];
      assert s[1..] == a[1..] + [c] + b;
      TokensSplit(a[1..], c, b);
    } else {
      assert s[0] == a[0];
      var n := WordLength(a);
      assert s == a + ([c] + b);
      WordLengthStopsAt(a, [c] + b);
      assert s[..n] == a[..n];
      assert s[n..] == a[n..] + [c] + b;
      TokensSplit(a[n..], c, b);
    }
  }

  predicate IsDigit(c: char) {
    '0' <= c <= '9'
  }

  predicate AllDigits(s: string) {
    forall i :: 0 <= i < |s| ==> IsDigit(s[i])
  }

  function DigitValue(c: char): nat
    requires IsDigit(c)
  {
    c as int - '0' as int
  }

  /** The value of a string of decimal digits, most significant first. */
  function DecimalValue(digits: string): nat
    requires AllDigits(digits)
  {
    if digits == [] then 0
    else DecimalValue(digits[..|digits| - 1]) * 10 + DigitValue(digits[|digits| - 1])
  }

  /** The decimal rendering of `n`, as `format!("{n}")` writes it. */
  function Decimal(n: nat): (s: string)
    ensures s != [] && AllDigits(s)
    ensures s[0] == '0' ==> n == 0
  {
    var last := ['0' + (n % 10) as char];
    if n < 10 then last else Decimal(n / 10) + last
  }

  /** Reading back a rendered number gives the number. */
  lemma {:induction false} DecimalRoundTrip(n: nat)
    ensures DecimalValue(Decimal(n)) == n
  {
    var s := Decimal(n);
    if n >= 10 {
      DecimalRoundTrip(n / 10);
      assert s[..|s| - 1] == Decimal(n / 10);
    }
  }

  /** The text after an optional leading '+'. */
  function Unsigned(s: string): string {
    if |s| > 0 && s[0] == '+' then s[1..] else s
  }

  /**
   * `str::parse::<u8>`: an optional leading '+', then at least one ASCII digit
   * and nothing else, with a value of at most 255.
   */
  function ParseU8(s: string): (r: Option<u8>)
    ensures r.Some? <==> Unsigned(s) != [] && AllDigits(Unsigned(s)) && DecimalValue(Unsigned(s)) <= 255
    ensures r.Some? ==> r.value as int == DecimalValue(Unsigned(s))
    ensures |s| > 0 && s[0] == '-' ==> r.None?
  {
    var digits := Unsigned(s);
    if digits == [] || !AllDigits(digits) then None
    else
      var v := DecimalValue(digits);
      if v <= 255 then Some(v as u8) else None
  }

  /** Every byte value survives being written in decimal and parsed back. */
  lemma ParseDecimal(v: u8)
    ensures ParseU8(Decimal(v as nat)) == Some(v)
  {
    DecimalRoundTrip(v as nat);
  }

  /** The value of a token that ends in '%' and whose prefix parses as a u8. */
  function PercentValue(token: string): (r: Option<u8>)
    ensures |token| == 0 || token[|token| - 1] != '%' ==> r.None?
    ensures r.Some? ==> |token| >= 2 && r == ParseU8(token[..|token| - 1])
    ensures r.Some? <==> |token| > 0 && token[|token| - 1] == '%' && ParseU8(token[..|token| - 1]).Some?
  {
    if |token| > 0 && token[|token| - 1] == '%' then ParseU8(token[..|token| - 1]) else None
  }

  /** The loop of `first_percentage`: the first token with a percentage, skipping the rest. */
  function FirstPercentageIn(tokens: seq<string>): (r: Option<u8>)
    ensures r.None? <==> forall i :: 0 <= i < |tokens| ==> PercentValue(tokens[i]).None?
  {
    if tokens == [] then None
    else if PercentValue(tokens[0]).Some? then PercentValue(tokens[0])
    else
      assert forall i :: 1 <= i < |tokens| ==> tokens[i] == tokens[1..][i - 1];
      FirstPercentageIn(tokens[1..])
  }

  /**
   * `first_percentage`: None exactly when no token of the text qualifies,
   * otherwise the value of a qualifying token (the first, by FirstPercentageIsFirst).
   */
  function FirstPercentage(text: string): (r: Option<u8>)
    ensures r.None? <==> forall t :: t in Tokens(text) ==> PercentValue(t).None?
    ensures r.Some? ==> exists t :: t in Tokens(text) && PercentValue(t) == r
  {
    var tokens := Tokens(text);
    var r := FirstPercentageIn(tokens);
    if r.Some? then
      FirstPercentageIsFirst(tokens);
      r
    else r
  }

  /** The result is the value of the first qualifying token; every token before it was skipped. */
  lemma {:induction false} FirstPercentageIsFirst(tokens: seq<string>)
    requires FirstPercentageIn(tokens).Some?
    ensures exists i :: (0 <= i < |tokens| && PercentValue(tokens[i]) == FirstPercentageIn(tokens)
      && forall j :: 0 <= j < i ==> PercentValue(tokens[j]).None?)
  {
    if PercentValue(tokens[0]).None? {
      FirstPercentageIsFirst(tokens[1..]);
      var i :| 0 <= i < |tokens[1..]| && PercentValue(tokens[1..][i]) == FirstPercentageIn(tokens[1..])
        && forall j :: 0 <= j < i ==> PercentValue(tokens[1..][j]).None?;
      assert PercentValue(tokens[i + 1]) == FirstPercentageIn(tokens);
      forall j | 0 <= j < i + 1 ensures PercentValue(tokens[j]).None? {
        if j > 0 { assert tokens[j] == tokens[1..][j - 1]; }
      }
    } else {
      assert PercentValue(tokens[0]) == FirstPercentageIn(tokens);
    }
  }

  /** A percentage written as `{v}%` reads back as v. */
  lemma PercentRoundTrip(v: u8)
    ensures FirstPercentage(Decimal(v as nat) + "%") == Some(v)
  {
    var t := Decimal(v as nat) + "%";
    assert NoWhitespace(t) by {
      forall i | 0 <= i < |t| ensures !IsWhitespace(t[i]) {
        if i < |t| - 1 { assert IsDigit(t[i]); }
      }
    }
    TokensOfWord(t);
    assert t[..|t| - 1] == Decimal(v as nat);
    ParseDecimal(v);
  }

  /** `str::contains`: `pattern` occurs somewhere in `text`. */
  predicate Contains(text: string, pattern: string)
    ensures Contains(text, pattern) ==> |pattern| <= |text|
    decreases |text|
  {
    text[..if |pattern| <= |text| then |pattern| else |text|] == pattern
    || (text != [] && Contains(text[1..], pattern))
  }

  /** `pattern` occurs in `text` starting at index i. */
  predicate OccursAt(text: string, pattern: string, i: nat) {
    i + |pattern| <= |text| && text[i..i + |pattern|] == pattern
  }

  /** An occurrence anywhere in the text is found. */
  lemma {:induction false} ContainsAt(text: string, pattern: string, i: nat)
    requires OccursAt(text, pattern, i)
    ensures Contains(text, pattern)
    decreases i
  {
    if i > 0 {
      assert text[1..][i - 1..i - 1 + |pattern|] == pattern;
      ContainsAt(text[1..], pattern, i - 1);
    }
  }

  /** Only an actual occurrence is found. */
  lemma {:induction false} ContainsOccurs(text: string, pattern: string)
    requires Contains(text, pattern)
    ensures exists i: nat :: OccursAt(text, pattern, i)
    decreases |text|
  {
    var k := if |pattern| <= |text| then |pattern| else |text|;
    if text[..k] == pattern {
      assert OccursAt(text, pattern, 0);
    } else {
      ContainsOccurs(text[1..], pattern);
      var i: nat :| OccursAt(text[1..], pattern, i);
      assert text[1..][i..i + |pattern|] == text[i + 1..i + 1 + |pattern|];
      assert OccursAt(text, pattern, i + 1);
    }
  }

  /**
   * The mute state read from the utility's output (None when it could not run):
   * any "yes" means muted, else any "no" means not muted, else unknown.
   */
  function MuteState(output: Option<string>): (r: Option<bool>)
    ensures output.None? ==> r.None?
    ensures r == Some(true) <==> output.Some? && Contains(output.value, "yes")
    ensures r == Some(false) <==> output.Some? && !Contains(output.value, "yes") && Contains(output.value, "no")
  {
    match output
    case None => None
    case Some(text) =>
      if Contains(text, "yes") then Some(true)
      else if Contains(text, "no") then Some(false)
      else None
  }

  /** A report that mentions "yes" counts as muted even when it also says "no". */
  lemma YesOutranksNo(text: string, i: nat, j: nat)
    requires i + 3 <= |text| && text[i..i + 3] == "yes"
    requires j + 2 <= |text| && text[j..j + 2] == "no"
    ensures MuteState(Some(text)) == Some(true)
  {
    ContainsAt(text, "yes", i);
  }

  /** What the notification reports after a volume action. */
  datatype VolumeStatus = VolumeStatus(volume: Option<u8>, muted: Option<bool>)

  /**
   * The readings that `adjust_volume` takes after its action: the mute state
   * first, and the volume only when not definitely muted.
   */
  function ReadVolumeStatus(muteOutput: Option<string>, volumeOutput: Option<string>): (r: VolumeStatus)
    ensures r.muted == MuteState(muteOutput)
    ensures r.muted == Some(true) ==> r.volume.None?
    ensures r.muted != Some(true) ==>
      r.volume == (if volumeOutput.Some? then FirstPercentage(volumeOutput.value) else None)
  {
    var muted := MuteState(muteOutput);
    var volume :=
      if muted == Some(true) then None
      else match volumeOutput
        case None => None
        case Some(text) => FirstPercentage(text);
    VolumeStatus(volume, muted)
  }

  /** `format!("{v}%")`: the digits of v and a percent sign. */
  function PercentText(v: u8): (t: string)
    ensures |t| >= 2 && t[|t| - 1] == '%'
    ensures PercentValue(t) == Some(v)
  {
    var t := Decimal(v as nat) + "%";
    ParseDecimal(v);
    assert t[..|t| - 1] == Decimal(v as nat);
    t
  }

  /** The notification body: muted, the percentage, or a fallback word. */
  function OsdBody(volume: Option<u8>, muted: Option<bool>): (r: string)
    ensures r != []
    ensures r == "Stumm" <==> muted == Some(true)
  {
    match muted
    case Some(true) => "Stumm"
    case Some(false) => (match volume case Some(v) => PercentText(v) case None => "Aktiv")
    case None => (match volume case Some(v) => PercentText(v) case None => "Ge\U{00E4}ndert")
  }

  /**
   * The body says "Stumm" when muted; otherwise it shows the volume so that it
   * reads back as that volume, or "Aktiv"/"Geändert" when there is none.
   */
  lemma OsdBodyCases(volume: Option<u8>, muted: Option<bool>)
    ensures muted == Some(true) ==> OsdBody(volume, muted) == "Stumm"
    ensures muted != Some(true) && volume.Some? ==>
      FirstPercentage(OsdBody(volume, muted)) == volume
    ensures muted == Some(false) && volume.None? ==> OsdBody(volume, muted) == "Aktiv"
    ensures muted.None? && volume.None? ==> OsdBody(volume, muted) == "Ge\U{00E4}ndert"
  {
    if muted != Some(true) && volume.Some? {
      PercentRoundTrip(volume.value);
    }
  }

  const NOTIFY_OPTIONS: seq<string> :=
    ["-a", "BoringWM", "-u", "low", "-h", "string:x-canonical-private-synchronous:volume"]

  /**
   * The arguments of the notification command: fixed options, an `int:value`
   * hint exactly when a volume is known, then the summary and the body.
   */
  function OsdCommand(volume: Option<u8>, muted: Option<bool>): (r: seq<string>)
    ensures |r| == (if volume.Some? then 10 else 8)
    ensures r[..6] == NOTIFY_OPTIONS
    ensures volume.Some? ==> r[6..8] == ["-h", "int:value:" + Decimal(volume.value as nat)]
    ensures r[|r| - 2..] == ["Audio", OsdBody(volume, muted)]
  {
    NOTIFY_OPTIONS
    + (if volume.Some? then ["-h", "int:value:" + Decimal(volume.value as nat)] else [])
    + ["Audio", OsdBody(volume, muted)]
  }

  /** `show_volume_osd`: builds the notification command step by step. */
  method ShowVolumeOsd(volume: Option<u8>, muted: Option<bool>) returns (command: seq<string>)
    ensures command == OsdCommand(volume, muted)
  {
    command := NOTIFY_OPTIONS;
    if volume.Some? {
      command := command + ["-h", "int:value:" + Decimal(volume.value as nat)];
    }
    var summary := "Audio";
    var body: string;
    match muted {
      case Some(true) =>
        body := "Stumm";
      case Some(false) =>
        if volume.Some? {
          command := command + [summary, PercentText(volume.value)];
          return;
        }
        body := "Aktiv";
      case None =>
        if volume.Some? {
          command := command + [summary, PercentText(volume.value)];
          return;
        }
        body := "Ge\U{00E4}ndert";
    }
    command := command + [summary, body];
  }

  /**
   * The arguments of the sound-server command for an action: a 5% step up or
   * down of the default sink's volume, or a mute toggle of that sink.
   */
  function ActionArguments(action: VolumeAction): (r: seq<string>)
    ensures |r| == 3 && r[1] == "@DEFAULT_SINK@"
    ensures action.ToggleMute? <==> r[0] == "set-sink-mute"
    ensures !action.ToggleMute? <==> r[0] == "set-sink-volume"
    ensures action.ToggleMute? ==> r[2] == "toggle"
    ensures action.Up? ==> r[2] == "+5%"
    ensures action.Down? ==> r[2] == "-5%"
  {
    match action
    case Up => ["set-sink-volume", "@DEFAULT_SINK@", "+5%"]
    case Down => ["set-sink-volume", "@DEFAULT_SINK@", "-5%"]
    case ToggleMute => ["set-sink-mute", "@DEFAULT_SINK@", "toggle"]
  }

  /**
   * A volume action: the sound-server command, then the notification. When
   * muted, the notification says "Stumm" with no value hint; otherwise the hint
   * is present exactly when a volume was read.
   */
  method AdjustVolume(action: VolumeAction, muteOutput: Option<string>, volumeOutput: Option<string>)
    returns (actionCommand: seq<string>, command: seq<string>)
    ensures actionCommand == ActionArguments(action)
    ensures var status := ReadVolumeStatus(muteOutput, volumeOutput); command == OsdCommand(status.volume, status.muted)
    ensures MuteState(muteOutput) == Some(true) ==> |command| == 8 && command[7] == "Stumm"
    ensures MuteState(muteOutput) != Some(true) ==>
      (|command| == 10 <==> volumeOutput.Some? && FirstPercentage(volumeOutput.value).Some?)
  {
    actionCommand := ActionArguments(action);
    var status := ReadVolumeStatus(muteOutput, volumeOutput);
    command := ShowVolumeOsd(status.volume, status.muted);
  }
}
