/** The turns of the main loop on the lexemes of a printed configuration. */
module ConfigRuns {
  import opened Text
  import opened ServerSettings
  import opened MainServerSettings
  import opened ConfigLexer
  import opened ConfigParser

  /** The loop is between two items of a block. */
  predicate InBlock(text: string, c: Config) {
    c.state == SKey && c.pos <= |text| && Terminated(text)
  }

  predicate Ready(text: string, c: Config) {
    Running(c.state) && c.pos <= |text| && Terminated(text)
  }

  predicate Lexes(text: string, c: Config, lexeme: Lexeme, next: nat)
    requires c.pos <= |text|
  {
    GetLexem(text, c.pos, Names(c.inServer)) == Lexed(lexeme, next)
  }

  lemma RunStep(text: string, c: Config, lexeme: Lexeme, next: nat)
    requires Ready(text, c) && Lexes(text, c, lexeme, next) && lexeme != LErr
    ensures c.pos < next <= |text|
    ensures var t := TurnOn(text, c, Lexed(lexeme, next));
            Run(text, c) == if t.Leave? then Parsed(t.m, t.outcome) else Run(text, t.config)
  {
    hide GetLexem, TurnOn;
    ListsAreKeywords();
    LexemAdvances(text, c.pos, Names(c.inServer));
  }

  lemma RunNewLine(text: string, c: Config, next: nat)
    requires Ready(text, c) && Lexes(text, c, LNewLine, next) && Stages(c.state, LNewLine) == c.state
    ensures c.pos < next <= |text|
    ensures Run(text, c) == Run(text, c.(pos := next))
  {
    hide GetLexem, Run;
    RunStep(text, c, LNewLine, next);
  }

  lemma RunProtocol(text: string, c: Config, next: nat)
    requires Ready(text, c) && Lexes(text, c, LProtocol, next) && c.state == SStart
    ensures c.pos < next <= |text|
    ensures Run(text, c) == Run(text, c.(pos := next, state := SBraceOpen))
  {
    hide GetLexem, Run;
    RunStep(text, c, LProtocol, next);
  }

  lemma RunOpen(text: string, c: Config, next: nat)
    requires Ready(text, c) && Lexes(text, c, LBraceOpen, next) && c.state in {SBraceOpen, SServerStart}
    ensures c.pos < next <= |text|
    ensures Run(text, c) == Run(text, c.(pos := next, state := SKey))
  {
    hide GetLexem, Run;
    RunStep(text, c, LBraceOpen, next);
  }

  lemma RunServerStart(text: string, c: Config, next: nat)
    requires InBlock(text, c) && !c.inServer && Lexes(text, c, LServerStart, next)
    ensures c.pos < next <= |text|
    ensures Run(text, c) == Run(text, c.(pos := next, state := SServerStart, inServer := true))
  {
    hide GetLexem, Run;
    RunStep(text, c, LServerStart, next);
  }

  lemma RunServerEnd(text: string, c: Config, next: nat)
    requires InBlock(text, c) && c.inServer && Lexes(text, c, LBraceClose, next)
    ensures c.pos < next <= |text|
    ensures Run(text, c) == Run(text, c.(pos := next, inServer := false))
  {
    hide GetLexem, Run;
    RunStep(text, c, LBraceClose, next);
  }

  lemma RunEnd(text: string, c: Config, next: nat)
    requires InBlock(text, c) && !c.inServer && Lexes(text, c, LBraceClose, next)
    ensures Run(text, c) == Parsed(c.m, Finished)
  {
    hide GetLexem;
    RunStep(text, c, LBraceClose, next);
  }

  lemma RunKey(text: string, c: Config, next: nat, number: nat)
    requires InBlock(text, c) && Lexes(text, c, LKey, next)
    requires c.pos < next <= |text| && IndexIn(Names(c.inServer), PropertyName(text[c.pos..next])) == number
    ensures Run(text, c) == Run(text, c.(pos := next, state := SValue, number := number))
  {
    hide GetLexem, Run, IndexIn, PropertyName;
    RunStep(text, c, LKey, next);
  }

  lemma RunMainValue(text: string, c: Config, next: nat)
    requires Ready(text, c) && c.state == SValue && !c.inServer && Lexes(text, c, LValue, next)
    ensures c.pos < next <= |text|
    ensures var m := WithMainProperty(c.m, c.number, text[c.pos..next]);
            Run(text, c) == if m == None then Parsed(c.m, Stopped)
                            else Run(text, c.(m := m.value, pos := next, state := SKey))
  {
    hide GetLexem, Run, WithMainProperty;
    RunStep(text, c, LValue, next);
  }

  lemma RunServerValue(text: string, c: Config, next: nat)
    requires Ready(text, c) && c.state == SValue && c.inServer && Lexes(text, c, LValue, next)
    ensures c.pos < next <= |text|
    ensures var sv := WithProperty(c.m.server, c.number, text[c.pos..next]);
            Run(text, c) == if sv == None then Parsed(c.m, Stopped)
                            else Run(text, c.(m := c.m.(server := sv.value), pos := next, state := SKey))
  {
    hide GetLexem, Run, WithProperty;
    RunStep(text, c, LValue, next);
  }

  lemma RunLocation(text: string, c: Config, next: nat, block: Block)
    requires InBlock(text, c) && c.inServer && Lexes(text, c, LLocation, next)
    requires next <= |text| && block == ReadLocation(c.m.server, text, next)
    ensures block.lexeme == Some(LErr) ==> Run(text, c) == Parsed(c.m.(server := block.sv), Invalid)
    ensures block.lexeme == Some(LEndLocation) ==>
              block.pos <= |text| && Run(text, c) == Run(text, c.(m := c.m.(server := block.sv), pos := block.pos))
  {
    hide GetLexem, ReadLocation, ReadUpstreams;
    RunStep(text, c, LLocation, next);
  }

  lemma RunUpstreams(text: string, c: Config, next: nat, block: Block)
    requires InBlock(text, c) && Lexes(text, c, LUpstream, next)
    requires next <= |text| && block == ReadUpstreams(c.m.server, text, next)
    ensures block.lexeme == None ==> Run(text, c) == Parsed(c.m.(server := block.sv), Threw)
    ensures block.lexeme == Some(LEndUpstream) ==>
              block.pos <= |text| && Run(text, c) == Run(text, c.(m := c.m.(server := block.sv), pos := block.pos))
  {
    hide GetLexem, ReadLocation, ReadUpstreams;
    RunStep(text, c, LUpstream, next);
  }
}
