/** What each command, line and setting of the application comes to, guest or no guest. */
module HostEffects {
  import opened Bytes
  import opened HostLines

  /** A typed command reaches the link, if the modem runs, unless it would steer a session a guest owns. */
  lemma CommandReaches(i: Input, owned: bool, running: bool, f: Facts)
    requires !i.SendData?
    ensures var steers := i.Connect? || i.Disconnect? || i.FecSend? || i.SendId? || i.Break?;
      ApplyEffect(HostCmd(i), owned, running, f) == if running && !(owned && steers) then Inject(i) else Nothing
  {
  }

  // --- how a line is read ---

  /** `kw` is all before the first space of `up`, and `params` what follows the spaces after it. */
  ghost predicate SplitAt(up: string, kw: string, params: Option<string>, n: nat) {
    && |kw| <= n <= |up| && kw == up[..|kw|] && ' ' !in kw && (|kw| == |up| || up[|kw|] == ' ')
    && (forall x :: |kw| <= x < n ==> up[x] == ' ')
    && params == (if n == |up| then None else Some(up[n..]))
    && (n < |up| ==> up[n] != ' ')
  }

  lemma {:induction false} SpacesSkipped(s: string) returns (n: nat)
    ensures n <= |s| && (forall x :: 0 <= x < n ==> s[x] == ' ') && (n < |s| ==> s[n] != ' ')
    ensures Unspaced(s) == if n == |s| then None else Some(s[n..])
  {
    n := 0;
    if s != [] && s[0] == ' ' {
      n := SpacesSkipped(s[1..]);
      n := n + 1;
    }
  }

  lemma SplitIs(up: string) returns (n: nat)
    ensures SplitAt(up, Keyword(up), Params(up), n)
  {
    var k := |Keyword(up)|;
    if k == |up| {
      n := k;
    } else {
      var rest := up[k + 1..];
      var m := SpacesSkipped(rest);
      n := k + 1 + m;
      forall x | k <= x < n ensures up[x] == ' ' {
        assert x > k ==> up[x] == rest[x - k - 1];
      }
    }
  }

  /** A word, a space, and something that does not start with one. */
  lemma WordAndParams(word: string, value: string)
    requires ' ' !in word && value != "" && value[0] != ' '
    ensures Keyword(word + " " + value) == word && Params(word + " " + value) == Some(value)
  {
    var up := word + " " + value;
    BeforeIs(up, word, ' ');
    assert up[|word| + 1..] == value;
  }

  // --- what a line tells the link ---

  /** The modem runs, and no guest owns the link or the line is none of a session's. */
  predicate Passes(up: string, owned: bool, running: bool) {
    running && !(owned && Keyword(up) in ["ARQCALL", "DISCONNECT", "FECSEND", "SENDID", "LISTEN", "BREAK"])
  }

  lemma LineIsRead(tail: string, owned: bool, running: bool, f: Facts)
    ensures ApplyEffect(HostLine(tail), owned, running, f) ==
      if Passes(Upper(Read(tail)), owned, running) then LineEffect(Read(tail), f) else Nothing
  {
    TestMatchesParser(Upper(Read(tail)));
  }

  lemma CutAgain(line: string)
    requires |line| < LINE_MAX
    ensures line[..Min(|line|, LINE_MAX - 1)] == line
  {
  }

  /** What the link is told by a line that says `kw` and `params`, for every input that steers a session. */
  predicate Steers(e: Effect, kw: string, params: Option<string>, f: Facts) {
    && (e == Inject(Abort) <==> kw == "ABORT" || kw == "DD")
    && (e == Inject(Break) <==> kw == "BREAK")
    && (e == Inject(Disconnect) <==> kw == "DISCONNECT" && !f.disconnected && !f.sendingFec)
    && (e == Inject(SendId) <==> kw == "SENDID" && f.myCallSet && f.disconnected)
    && (e == Inject(FecSend) <==> kw == "FECSEND" && params == Some("TRUE") && f.myCallSet && f.fecReady)
  }

  /** And for the others. */
  predicate SetsMode(e: Effect, kw: string, params: Option<string>) {
    && (e == Inject(SetMode(Arq)) <==> kw == "PROTOCOLMODE" && params == Some("ARQ"))
    && (e == Inject(SetMode(Fec)) <==> kw == "PROTOCOLMODE" && params == Some("FEC"))
    && (e == Inject(SetMode(Rxo)) <==> kw == "PROTOCOLMODE" && params == Some("RXO"))
    && !(e.Inject? && e.input.SendData?)
  }

  predicate Tells(e: Effect, kw: string, params: Option<string>, f: Facts) {
    Steers(e, kw, params, f) && SetsMode(e, kw, params)
  }

  lemma LineSteers(line: string, f: Facts)
    requires |line| < LINE_MAX
    ensures var up := Upper(line); Steers(LineEffect(line, f), Keyword(up), Params(up), f)
  {
    CutAgain(line);
  }

  lemma LineSetsMode(line: string, f: Facts)
    requires |line| < LINE_MAX
    ensures var up := Upper(line); SetsMode(LineEffect(line, f), Keyword(up), Params(up))
  {
    CutAgain(line);
  }

  lemma LineTells(line: string, f: Facts)
    requires |line| < LINE_MAX
    ensures var up := Upper(line); Tells(LineEffect(line, f), Keyword(up), Params(up), f)
  {
    LineSteers(line, f);
    LineSetsMode(line, f);
  }

  /** A call is placed to the first word of the parameters, if it is a callsign, and this station has one, in ARQ mode. */
  lemma LineCalls(line: string, target: string, f: Facts)
    requires |line| < LINE_MAX
    ensures var up := Upper(line);
      LineEffect(line, f) == Inject(Connect(target)) <==>
        && Keyword(up) == "ARQCALL" && Params(up).Some? && target == Before(Params(up).value, ' ')
        && f.validId(target) && f.myCallSet && f.mode == Arq
  {
    CutAgain(line);
  }

  /**
   * A queued line, read up to its NUL and in upper case, tells the link what its keyword says, under
   * the conditions its keyword has; nothing if the modem does not run, or a guest owns the link and
   * the keyword is a session's.
   */
  lemma QueuedLineTells(tail: string, target: string, owned: bool, running: bool, f: Facts)
    ensures var up, e := Upper(Read(tail)), ApplyEffect(HostLine(tail), owned, running, f);
      if Passes(up, owned, running) then
        && Tells(e, Keyword(up), Params(up), f)
        && (e == Inject(Connect(target)) <==>
            && Keyword(up) == "ARQCALL" && Params(up).Some? && target == Before(Params(up).value, ' ')
            && f.validId(target) && f.myCallSet && f.mode == Arq)
      else e == Nothing
  {
    LineIsRead(tail, owned, running, f);
    LineTells(Read(tail), f);
    LineCalls(Read(tail), target, f);
  }

  // --- settings ---

  lemma {:induction false} DigitsAppend(s: string, d: char, acc: nat)
    requires (forall i :: 0 <= i < |s| ==> '0' <= s[i] <= '9') && '0' <= d <= '9'
    ensures Digits(s + [d], acc) == 10 * Digits(s, acc) + (d as int - '0' as int)
    decreases |s|
  {
    if s == [] {
      assert s + [d] == [d] && [d][1..] == [];
    } else {
      assert (s + [d])[1..] == s[1..] + [d];
      DigitsAppend(s[1..], d, 10 * acc + (s[0] as int - '0' as int));
    }
  }

  lemma {:induction false} DecimalReads(n: nat)
    ensures Decimal(n) != "" && forall i :: 0 <= i < |Decimal(n)| ==> '0' <= Decimal(n)[i] <= '9'
    ensures Digits(Decimal(n), 0) == n
  {
    var d := ('0' as int + n % 10) as char;
    if n < 10 {
      assert Decimal(n) == "" + [d] && [d][1..] == [];
      DigitsAppend("", d, 0);
    } else {
      DecimalReads(n / 10);
      DigitsAppend(Decimal(n / 10), d, 0);
    }
  }

  /** A number, printed and read again. */
  lemma NumberReads(n: int)
    ensures Number(n) != "" && Number(n)[0] != ' ' && Upper(Number(n)) == Number(n) && Atoi(Number(n)) == n
  {
    if n < 0 {
      DecimalReads(-n);
      assert Number(n)[1..] == Decimal(-n);
    } else {
      DecimalReads(n);
    }
  }

  predicate Numeric(s: Setting) {
    s.FecRepeats? || s.BusyDet?
  }

  predicate Textual(s: Setting) {
    s.MyCall? || s.GridSquare? || s.ArqBw? || s.ProtocolMode? || s.FecMode?
  }

  lemma UpperJoins(a: string, b: string)
    ensures Upper(a + b) == Upper(a) + Upper(b)
  {
  }

  lemma PlainIsUpper(word: string)
    requires Plain(word)
    ensures Upper(word) == word && ' ' !in word
  {
  }

  /** Any value that is not empty and does not start with a space is the setting's parameter, in upper case. */
  lemma ValueIsParameter(word: string, value: string)
    requires Plain(word) && value != "" && value[0] != ' '
    ensures Params(Upper(word + " " + value)) == Some(Upper(value)) && Keyword(Upper(word + " " + value)) == word
  {
    UpperJoins(word + " ", value);
    UpperJoins(word, " ");
    PlainIsUpper(word);
    assert Upper(" ") == " " && Upper(value)[0] != ' ';
    WordAndParams(word, Upper(value));
  }

  /** A setting's line says the setting's name and its value: text in upper case, a number that reads back, or TRUE or FALSE. */
  lemma SettingSays(s: Setting)
    ensures var up := Upper(SettingLine(s));
      && (Textual(s) && s.str != "" && s.str[0] != ' ' ==> Params(up) == Some(Upper(s.str)))
      && (Numeric(s) ==> Params(up).Some? && Atoi(Params(up).value) == s.num)
      && (!Textual(s) && !Numeric(s) ==> Params(up) == Some(if s.on then "TRUE" else "FALSE"))
  {
    WordsArePlain(s);
    if Textual(s) {
      if s.str != "" && s.str[0] != ' ' {
        ValueIsParameter(Word(s), s.str);
      }
    } else if Numeric(s) {
      NumberReads(s.num);
      ValueIsParameter(Word(s), Number(s.num));
    } else {
      PlainIsUpper(Truth(s.on));
      ValueIsParameter(Word(s), Truth(s.on));
    }
  }

  /** And the name is the one the parser knows it by. */
  lemma SettingNames(s: Setting)
    ensures var kw := Keyword(Upper(SettingLine(s)[..Min(|SettingLine(s)|, LINE_MAX - 1)]));
      && (s.MyCall? <==> kw == "MYCALL") && (s.GridSquare? <==> kw == "GRIDSQUARE") && (s.ArqBw? <==> kw == "ARQBW")
      && (s.ProtocolMode? <==> kw == "PROTOCOLMODE") && (s.FecMode? <==> kw == "FECMODE")
      && (s.FecRepeats? <==> kw == "FECREPEATS") && (s.BusyDet? <==> kw == "BUSYDET") && (s.Listen? <==> kw == "LISTEN")
      && (s.AutoBreak? <==> kw == "AUTOBREAK") && (s.FskOnly? <==> kw == "FSKONLY")
      && (s.Use600Modes? <==> kw == "USE600MODES") && (s.EnablePingAck? <==> kw == "ENABLEPINGACK")
  {
    ConfigKeyword(s);
  }

  // --- a line as it is typed ---

  lemma TypedUpper()
    ensures Upper("arqcall ") == "ARQCALL " && Upper("w1aw") == "W1AW"
  {
  }

  lemma TypedRead()
    ensures Read("arqcall " + "w1aw") == "arqcall " + "w1aw"
  {
    var typed := "arqcall " + "w1aw";
    assert typed[..12] == typed;
    BeforeIs(typed, typed, '\0');
  }

  /** "arqcall w1aw" calls W1AW. */
  lemma TypedCall(f: Facts)
    requires f.validId("W1AW") && f.myCallSet && f.mode == Arq
    ensures ApplyEffect(HostLine("arqcall " + "w1aw"), false, true, f) == Inject(Connect("W1AW"))
  {
    TypedRead();
    TypedUpper();
    UpperJoins("arqcall ", "w1aw");
    assert "ARQCALL" + " " + "W1AW" == "ARQCALL " + "W1AW";
    WordAndParams("ARQCALL", "W1AW");
    BeforeIs("W1AW", "W1AW", ' ');
    QueuedLineTells("arqcall " + "w1aw", "W1AW", false, true, f);
  }
}
