/**
 * Who may steer the link while a guest owns it: the application's own test of a command line,
 * against the command parser that would act on it.
 */
module HostLines {
  import opened Bytes

  const LINE_MAX := 3000

  // --- what the link can be told ---

  datatype Mode = Arq | Fec | Rxo

  datatype Input =
    | Connect(target: string)
    | Disconnect
    | Abort
    | SendData(bytes: seq<byte>)
    | SetMode(mode: Mode)
    | FecSend
    | SendId
    | Break

  /** An effect of one command line on the link, configuration apart. */
  datatype Effect = Nothing | Inject(input: Input) | Purge

  /** What the parser looks at in the link before it acts. */
  datatype Facts = Facts(myCallSet: bool, mode: Mode, disconnected: bool, sendingFec: bool, fecReady: bool, validId: string -> bool)

  // --- strings ---

  /** Everything before the first `stop`. */
  function Before(s: string, stop: char): (r: string)
    ensures r <= s && stop !in r
    ensures |r| < |s| ==> s[|r|] == stop
    ensures stop !in s ==> r == s
  {
    if s == [] || s[0] == stop then [] else [s[0]] + Before(s[1..], stop)
  }

  function UpperChar(c: char): char {
    if 'a' <= c <= 'z' then c - 'a' + 'A' else c
  }

  function Upper(s: string): (r: string)
    ensures |r| == |s|
  {
    seq(|s|, i requires 0 <= i < |s| => UpperChar(s[i]))
  }

  /** The text without its leading spaces, or None when that leaves nothing. */
  function Unspaced(s: string): Option<string> {
    if s == [] then None else if s[0] == ' ' then Unspaced(s[1..]) else Some(s)
  }

  function Keyword(up: string): string {
    Before(up, ' ')
  }

  function Params(up: string): Option<string> {
    if |Keyword(up)| == |up| then None else Unspaced(up[|Keyword(up)| + 1..])
  }

  // --- the parser ---

  function ModeFor(name: string): Option<Mode> {
    if name == "ARQ" then Some(Arq) else if name == "FEC" then Some(Fec) else if name == "RXO" then Some(Rxo) else None
  }

  function CallEffect(params: Option<string>, f: Facts): Effect {
    if params.None? || !f.validId(Before(params.value, ' ')) || !f.myCallSet || f.mode != Arq then Nothing
    else Inject(Connect(Before(params.value, ' ')))
  }

  /** What a command line does to the link. Its case, and how it is spaced, do not matter. */
  function LineEffect(line: string, f: Facts): Effect {
    var up := Upper(line[..Min(|line|, LINE_MAX - 1)]);
    var kw, params := Keyword(up), Params(up);
    if kw == "ABORT" || kw == "DD" then Inject(Abort)
    else if kw == "ARQCALL" then CallEffect(params, f)
    else if kw == "DISCONNECT" then if !f.disconnected && !f.sendingFec then Inject(Disconnect) else Nothing
    else if kw == "BREAK" then Inject(Break)
    else if kw == "SENDID" then if f.myCallSet && f.disconnected then Inject(SendId) else Nothing
    else if kw == "FECSEND" then if params == Some("TRUE") && f.myCallSet && f.fecReady then Inject(FecSend) else Nothing
    else if kw == "PROTOCOLMODE" then
      if params.Some? && ModeFor(params.value).Some? then Inject(SetMode(ModeFor(params.value).value)) else Nothing
    else if kw == "DATATOSEND" || kw == "BUFFER" then if params.Some? && Atoi(params.value) == 0 then Purge else Nothing
    else if kw == "PURGEBUFFER" then Purge
    else Nothing
  }

  /** `atoi`: leading blanks, a sign, then digits; zero when there are none. */
  function Atoi(s: string): int {
    if s != [] && s[0] in " \t\n\U{0b}\U{0c}\r" then Atoi(s[1..])
    else if s != [] && s[0] == '-' then 0 - Digits(s[1..], 0) as int
    else if s != [] && s[0] == '+' then Digits(s[1..], 0)
    else Digits(s, 0)
  }

  function Digits(s: string, acc: nat): nat
    decreases |s|
  {
    if s != [] && '0' <= s[0] <= '9' then Digits(s[1..], 10 * acc + (s[0] as int - '0' as int)) else acc
  }

  // --- the application's own test ---

  const SESSION: seq<string> := ["ARQCALL", "DISCONNECT", "FECSEND", "SENDID", "LISTEN", "BREAK"]

  /** The line starts with `word`, and the line or the word ends there. */
  predicate StartsWithWord(up: string, word: string) {
    word <= up && (|up| == |word| || up[|word|] == ' ')
  }

  predicate LineIsSession(up: string) {
    exists i :: 0 <= i < |SESSION| && StartsWithWord(up, SESSION[i])
  }

  lemma {:induction false} BeforeIs(s: string, word: string, stop: char)
    requires word <= s && stop !in word && (|s| == |word| || s[|word|] == stop)
    ensures Before(s, stop) == word
  {
    if word != [] {
      assert s[0] == word[0] && word[0] in word;
      BeforeIs(s[1..], word[1..], stop);
    }
  }

  /** For a word without a space, both ways of recognising it agree on every line. */
  lemma WordIsKeyword(up: string, word: string)
    requires ' ' !in word
    ensures StartsWithWord(up, word) <==> Keyword(up) == word
  {
    if StartsWithWord(up, word) {
      BeforeIs(up, word, ' ');
    }
  }

  /** The application's test names exactly the lines whose keyword, as the parser splits it, is a session command. */
  lemma TestMatchesParser(up: string)
    ensures LineIsSession(up) <==> Keyword(up) in SESSION
  {
    forall i | 0 <= i < |SESSION| ensures StartsWithWord(up, SESSION[i]) <==> Keyword(up) == SESSION[i] {
      SessionWord(i);
      WordIsKeyword(up, SESSION[i]);
    }
  }

  lemma SessionWord(i: nat)
    requires i < |SESSION|
    ensures ' ' !in SESSION[i]
  {
  }

  method TestLine(up: string) returns (b: bool)
    ensures b <==> LineIsSession(up)
  {
    var i := 0;
    while i < |SESSION|
      invariant 0 <= i <= |SESSION| && forall j :: 0 <= j < i ==> !StartsWithWord(up, SESSION[j])
    {
      if StartsWithWord(up, SESSION[i]) {
        return true;
      }
      i := i + 1;
    }
    b := false;
  }

  /** The parser's split, as it scans the line. */
  method Split(up: string) returns (kw: string, params: Option<string>)
    ensures kw == Keyword(up) && params == Params(up)
  {
    var n := 0;
    while n < |up| && up[n] != ' '
      invariant 0 <= n <= |up| && ' ' !in up[..n]
    {
      n := n + 1;
    }
    kw := up[..n];
    BeforeIs(up, kw, ' ');
    params := None;
    if n < |up| {
      n := n + 1;
      while n < |up| && up[n] == ' '
        invariant |kw| < n <= |up| && Params(up) == Unspaced(up[n..])
      {
        n := n + 1;
      }
      if n < |up| {
        params := Some(up[n..]);
      }
    }
  }

  // --- configuration, which runs as lines ---

  datatype Setting =
    | MyCall(str: string) | GridSquare(str: string) | ArqBw(str: string) | ProtocolMode(str: string) | FecMode(str: string)
    | FecRepeats(num: int) | BusyDet(num: int)
    | Listen(on: bool) | AutoBreak(on: bool) | FskOnly(on: bool) | Use600Modes(on: bool) | EnablePingAck(on: bool)

  function Truth(b: bool): string {
    if b then "TRUE" else "FALSE"
  }

  function Decimal(n: nat): string {
    (if n < 10 then "" else Decimal(n / 10)) + [('0' as int + n % 10) as char]
  }

  function Number(n: int): string {
    if n < 0 then "-" + Decimal(-n) else Decimal(n)
  }

  function Word(s: Setting): string {
    match s
    case MyCall(_) => "MYCALL"
    case GridSquare(_) => "GRIDSQUARE"
    case ArqBw(_) => "ARQBW"
    case ProtocolMode(_) => "PROTOCOLMODE"
    case FecMode(_) => "FECMODE"
    case FecRepeats(_) => "FECREPEATS"
    case BusyDet(_) => "BUSYDET"
    case Listen(_) => "LISTEN"
    case AutoBreak(_) => "AUTOBREAK"
    case FskOnly(_) => "FSKONLY"
    case Use600Modes(_) => "USE600MODES"
    case EnablePingAck(_) => "ENABLEPINGACK"
  }

  function Value(s: Setting): string {
    match s
    case MyCall(str) => str
    case GridSquare(str) => str
    case ArqBw(str) => str
    case ProtocolMode(str) => str
    case FecMode(str) => str
    case FecRepeats(num) => Number(num)
    case BusyDet(num) => Number(num)
    case Listen(on) => Truth(on)
    case AutoBreak(on) => Truth(on)
    case FskOnly(on) => Truth(on)
    case Use600Modes(on) => Truth(on)
    case EnablePingAck(on) => Truth(on)
  }

  function SettingLine(s: Setting): string {
    Word(s) + " " + Value(s)
  }

  // --- ownership ---

  datatype Command = Payload(bytes: seq<byte>) | HostCmd(input: Input) | HostLine(line: string) | Config(setting: Setting)

  predicate InputIsSession(i: Input) {
    i.Connect? || i.Disconnect? || i.FecSend? || i.SendId? || i.Break?
  }

  /** What one downward record makes the spine do to the link. */
  function ApplyEffect(c: Command, owned: bool, running: bool, f: Facts): Effect {
    match c
    case Payload(bytes) => if owned || !running then Nothing else Inject(SendData(bytes))
    case HostCmd(input) => if (owned && InputIsSession(input)) || !running then Nothing else Inject(input)
    case HostLine(tail) =>
      var line := Before(tail[..Min(|tail|, LINE_MAX - 1)], '\0');
      if (owned && LineIsSession(Upper(line))) || !running then Nothing else LineEffect(line, f)
    case Config(setting) => if !running then Nothing else LineEffect(SettingLine(setting), f)
  }

  /** What submission lets into the queue: payload only under credit, never as a bare command. */
  predicate Submittable(c: Command) {
    c.HostCmd? ==> !c.input.SendData?
  }

  /** The effects the application may have while a guest owns the link. */
  predicate Harmless(e: Effect) {
    e.Nothing? || e.Purge? || (e.Inject? && (e.input.Abort? || e.input.SetMode?))
  }

  lemma UnlistedLineIsHarmless(line: string, f: Facts)
    requires |line| < LINE_MAX && Keyword(Upper(line)) !in SESSION
    ensures Harmless(LineEffect(line, f))
  {
    assert line[..|line|] == line;
    assert SESSION[0] in SESSION && SESSION[1] in SESSION && SESSION[2] in SESSION && SESSION[3] in SESSION && SESSION[5] in SESSION;
  }

  predicate Plain(word: string) {
    |word| <= 13 && forall i :: 0 <= i < |word| ==> 'A' <= word[i] <= 'Z' || '0' <= word[i] <= '9'
  }

  lemma WordsArePlain(s: Setting)
    ensures Plain(Word(s))
    ensures Word(s) != "PURGEBUFFER" && Word(s) != "DATATOSEND" && Word(s) != "BUFFER"
    ensures Word(s) != "ARQCALL" && Word(s) != "DISCONNECT" && Word(s) != "FECSEND" && Word(s) != "SENDID" && Word(s) != "BREAK"
  {
  }

  lemma PlainKeyword(word: string, value: string)
    requires Plain(word)
    ensures var line := word + " " + value;
      Keyword(Upper(line[..Min(|line|, LINE_MAX - 1)])) == word
  {
    var line := word + " " + value;
    var up := Upper(line[..Min(|line|, LINE_MAX - 1)]);
    assert up[..|word|] == word && up[|word|] == ' ';
    BeforeIs(up, word, ' ');
  }

  /** Whatever the value of a setting, spaces and all, its line runs under the setting's own keyword. */
  lemma ConfigKeyword(s: Setting)
    ensures var line := SettingLine(s);
      Keyword(Upper(line[..Min(|line|, LINE_MAX - 1)])) == Word(s)
  {
    WordsArePlain(s);
    PlainKeyword(Word(s), Value(s));
  }

  /**
   * While a guest owns the link, no record the application can queue, whatever line or
   * setting it holds, tells the link anything but to abort or to change mode.
   */
  lemma GuestOwnsTheLink(c: Command, running: bool, f: Facts)
    requires Submittable(c)
    ensures Harmless(ApplyEffect(c, true, running, f))
  {
    match c
    case HostLine(tail) =>
      var line := Before(tail[..Min(|tail|, LINE_MAX - 1)], '\0');
      TestMatchesParser(Upper(line));
      if Keyword(Upper(line)) !in SESSION {
        UnlistedLineIsHarmless(line, f);
      }
    case Config(setting) =>
      ConfigKeyword(setting);
      WordsArePlain(setting);
    case _ =>
  }

  /** A line in upper case asks for the queue to be emptied. */
  predicate AsksForPurge(up: string) {
    PurgeWord(Keyword(up)) && (Keyword(up) == "PURGEBUFFER" || (Params(up).Some? && Atoi(Params(up).value) == 0))
  }

  predicate PurgeWord(kw: string) {
    kw == "PURGEBUFFER" || kw == "DATATOSEND" || kw == "BUFFER"
  }

  lemma PurgeWordsApart(kw: string)
    requires PurgeWord(kw)
    ensures kw !in SESSION
  {
    forall i | 0 <= i < |SESSION| ensures SESSION[i] != kw {
      assert |kw| == |SESSION[i]| ==> kw[1] != SESSION[i][1];
    }
  }

  lemma LinePurges(line: string, f: Facts)
    requires |line| < LINE_MAX
    ensures LineEffect(line, f).Purge? <==> AsksForPurge(Upper(line))
  {
    assert line[..|line|] == line;
    var kw := Keyword(Upper(line));
    if PurgeWord(kw) {
      assert kw[1] in "UA" && kw[0] != 'F';
    }
  }

  /** The line as the spine reads it: cut to the longest, up to its first NUL. */
  function Read(tail: string): (line: string)
    ensures |line| < LINE_MAX
  {
    Before(tail[..Min(|tail|, LINE_MAX - 1)], '\0')
  }

  lemma SettingNeverPurges(s: Setting, f: Facts)
    ensures !LineEffect(SettingLine(s), f).Purge?
  {
    ConfigKeyword(s);
    WordsArePlain(s);
  }

  /** What gets past the test: exactly these lines make the spine empty the link's queue while a guest owns it. */
  lemma PurgesExactly(c: Command, running: bool, f: Facts)
    ensures ApplyEffect(c, true, running, f).Purge? <==> running && c.HostLine? && AsksForPurge(Upper(Read(c.line)))
  {
    match c
    case HostLine(tail) =>
      var up := Upper(Read(tail));
      TestMatchesParser(up);
      LinePurges(Read(tail), f);
      if AsksForPurge(up) {
        PurgeWordsApart(Keyword(up));
      }
    case Config(setting) => SettingNeverPurges(setting, f);
    case _ =>
  }

  lemma PlainLine(word: string)
    requires Plain(word)
    ensures Upper(Read(word)) == word == Keyword(word)
  {
    assert word[..|word|] == word;
    BeforeIs(word, word, '\0');
    BeforeIs(word, word, ' ');
  }

  /** Such a line can be queued, and takes the guest's bytes out of the link. */
  lemma GuestQueueCanBePurged(f: Facts)
    ensures Submittable(HostLine("PURGEBUFFER")) && ApplyEffect(HostLine("PURGEBUFFER"), true, true, f) == Purge
  {
    PlainLine("PURGEBUFFER");
    PurgesExactly(HostLine("PURGEBUFFER"), true, f);
  }
}
