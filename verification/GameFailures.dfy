/** Which games can run into the failures, said of their configuration, when flags are made by the game's own signer. */
module GameFailures {
  import opened Collections
  import opened GoValues
  import opened Text
  import opened Codec
  import opened GameRules
  import opened GameTheorems
  import opened GameWitness

  /** The flags of the game are those of its generator, its signer and its verification. */
  ghost predicate HasSigner(cfg: Config, gen: FlagGenerator, sign: SignFunction, valid: ValidFunction) {
    SignerCorrect(sign, valid) && forall flag :: cfg.decode(flag) == Verify(gen, valid, flag)
  }

  /** The first tick of the game makes this flag. */
  lemma FlagOfCheck(cfg: Config, gen: FlagGenerator, sign: SignFunction, valid: ValidFunction, t: int, tick: int)
    requires cfg.Valid() && HasSigner(cfg, gen, sign, valid) && FitsInt64(|cfg.services|)
    requires cfg.checks != [] && cfg.IsTeamId(t) && 1 <= tick && FitsInt64(tick)
    ensures var flag := Generate(gen, Triple(tick, t, cfg.checks[0]), sign);
            cfg.decode(flag) == Some(Triple(tick, t, cfg.checks[0])) && WillBeMade(cfg, flag, tick)
  {
    VerifyOfGenerate(gen, sign, valid, Triple(tick, t, cfg.checks[0]));
  }

  lemma FlagsOfGames(cfg: Config, gen: FlagGenerator, sign: SignFunction, valid: ValidFunction, info: int, last: int)
    requires cfg.Valid() && HasSigner(cfg, gen, sign, valid) && FitsInt64(|cfg.services|) && 1 <= last
    ensures (exists flag :: ForeignFlag(cfg, info, flag, last)) <==> cfg.checks != [] && cfg.TeamIds() - {info} != {}
  {
    forall flag | ForeignFlag(cfg, info, flag, last) ensures cfg.checks != [] && cfg.TeamIds() - {info} != {} {
      assert cfg.decode(flag).value.team in cfg.TeamIds() - {info};
    }
    if cfg.checks != [] && cfg.TeamIds() - {info} != {} {
      var t := Member(cfg.TeamIds() - {info});
      FlagOfCheck(cfg, gen, sign, valid, t, 1);
      assert ForeignFlag(cfg, info, Generate(gen, Triple(1, t, cfg.checks[0]), sign), last);
    }
  }

  /**
    In a game with its own signer these failures can be received exactly when flags are not given minus one tick length
    or less to live, the game lasts for a tick, something is checked and there is another team to steal from.
   */
  lemma FailuresExactly(cfg: Config, gen: FlagGenerator, sign: SignFunction, valid: ValidFunction, info: int)
    requires cfg.Valid() && HasSigner(cfg, gen, sign, valid) && FitsInt64(|cfg.services|)
    ensures var played := cfg.flagValidTime > -cfg.tickRate && cfg.duration >= cfg.tickRate
                          && cfg.checks != [] && cfg.TeamIds() - {info} != {};
            (CanPanic(cfg, info) <==> played) && (CanLoseFlag(cfg, info) <==> cfg.IsTeamId(info) && played)
  {
    QuotientReaches(cfg.flagValidTime, cfg.tickRate, 1);
    QuotientReaches(cfg.duration, cfg.tickRate, 1);
    FlagsCanBeLostExactly(cfg, info);
    if cfg.TotalTicks() >= 1 {
      FlagsOfGames(cfg, gen, sign, valid, info, 1);
      FlagsOfGames(cfg, gen, sign, valid, info, cfg.TotalTicks());
    }
    if cfg.IsTeamId(info) {
      TeamsCanPanicExactly(cfg, info);
    } else {
      OutsidersCanPanicExactly(cfg, info);
      assert forall flag :: WillBeMade(cfg, flag, cfg.TotalTicks()) <==> ForeignFlag(cfg, info, flag, cfg.TotalTicks());
    }
  }

  /** A run in which one team submits two different texts of the same signed triple, and the first is accepted. */
  ghost predicate RespellsFlag(cfg: Config, gen: FlagGenerator, states: seq<State>, steps: seq<Step>, j: nat, k: nat,
                               info: int, tr: Triple, signature: string)
    requires cfg.Valid()
  {
    && Run(cfg, states, steps) && j < k < |steps| && steps[j].Submit? && steps[k].Submit?
    && steps[j].info == info == steps[k].info && steps[j].flag != steps[k].flag
    && IsSpelling(gen, steps[j].flag, tr, signature) && IsSpelling(gen, steps[k].flag, tr, signature)
    && steps[j].outcome == Answer(FlagAccepted)
  }

  /** Such runs exist in every game of two ticks, two teams and one check: the second text is answered as stolen. */
  lemma FlagsCanBeRespelled(cfg: Config, gen: FlagGenerator, sign: SignFunction, valid: ValidFunction,
                            info: int, t: int)
    returns (states: seq<State>, steps: seq<Step>, tr: Triple)
    requires cfg.Valid() && HasSigner(cfg, gen, sign, valid) && FitsInt64(|cfg.services|)
    requires cfg.TotalTicks() >= 2 && cfg.FlagValidTicks() >= 0 && cfg.checks != []
    requires cfg.IsTeamId(info) && cfg.IsTeamId(t) && info != t
    ensures |steps| >= 3
    ensures RespellsFlag(cfg, gen, states, steps, |steps| - 3, |steps| - 1, info, tr, sign(Payload(tr)))
    ensures steps[|steps| - 1].outcome == Answer(FlagAlreadyStolen)
  {
    tr := Triple(2, t, cfg.checks[0]);
    var first, second := TextsOfTriple(cfg, gen, sign, valid, tr);
    var s := FlagIsReceived(cfg, first);
    ArchiveIsAligned(cfg, s);
    AnswersExactly(cfg, s, info, first);
    var s1, s2, s3 := SubmittedTwice(cfg, s, info, first, second);
    var accepted, stolen := Submit(info, first, Answer(FlagAccepted)), Submit(info, second, Answer(FlagAlreadyStolen));
    states, steps :| Run(cfg, states, steps) && states[|steps|] == s;
    RunExtend(cfg, states, steps, accepted, s1);
    states, steps := states + [s1], steps + [accepted];
    RunExtend(cfg, states, steps, EnterSubmit, s2);
    states, steps := states + [s2], steps + [EnterSubmit];
    RunExtend(cfg, states, steps, stolen, s3);
    states, steps := states + [s3], steps + [stolen];
  }

  /** Right after an accepted flag another text of the same triple is answered as stolen. */
  lemma SubmittedTwice(cfg: Config, s: State, info: int, first: string, second: string)
    returns (s1: State, s2: State, s3: State)
    requires cfg.Valid() && Reachable(cfg, s) && s.inFlight > 0 && s.running && s.overall.Some?
    requires Unforged(cfg, s, first)
    requires Judge(cfg, s.current, s.overall, info, first) == Answer(FlagAccepted)
    requires cfg.decode(second) == cfg.decode(first)
    ensures Next(cfg, s, Submit(info, first, Answer(FlagAccepted)), s1) && Next(cfg, s1, EnterSubmit, s2)
    ensures Next(cfg, s2, Submit(info, second, Answer(FlagAlreadyStolen)), s3)
  {
    s1 := SubmissionAccepted(cfg, s, info, first);
    ReachableStep(cfg, s, Submit(info, first, Answer(FlagAccepted)), s1);
    s2 := s1.(inFlight := s1.inFlight + 1);
    ReachableStep(cfg, s1, EnterSubmit, s2);
    s3 := s2.(inFlight := s2.inFlight - 1);
    var tr := cfg.decode(first).value;
    AnswersExactly(cfg, s, info, first);
    assert Steal(info, tr.team, tr.tick, tr.service) in s2.History();
    AnswersExactly(cfg, s2, info, second);
  }

  lemma TextsOfTriple(cfg: Config, gen: FlagGenerator, sign: SignFunction, valid: ValidFunction, tr: Triple)
    returns (first: string, second: string)
    requires HasSigner(cfg, gen, sign, valid) && tr.Fits() && tr.tick >= 0
    ensures first != second && cfg.decode(first) == Some(tr) == cfg.decode(second)
    ensures IsSpelling(gen, first, tr, sign(Payload(tr))) && IsSpelling(gen, second, tr, sign(Payload(tr)))
  {
    var signature := sign(Payload(tr));
    var tick, team, service := PrintInt(tr.tick), PrintInt(tr.team), PrintInt(tr.service);
    TwoSpellings(gen, tr, signature);
    first := TextOfTriple(cfg, gen, sign, valid, tr, tick, team, service);
    second := TextOfTriple(cfg, gen, sign, valid, tr, "0" + tick, team, service);
  }

  lemma TextOfTriple(cfg: Config, gen: FlagGenerator, sign: SignFunction, valid: ValidFunction, tr: Triple,
                     tick: string, team: string, service: string)
    returns (flag: string)
    requires HasSigner(cfg, gen, sign, valid) && Spells(tr, tick, team, service)
    ensures flag == gen.prefix + Spelled(tick, team, service, sign(Payload(tr))) + gen.suffix
    ensures cfg.decode(flag) == Some(tr) && IsSpelling(gen, flag, tr, sign(Payload(tr)))
  {
    var signature := sign(Payload(tr));
    flag := gen.prefix + Spelled(tick, team, service, signature) + gen.suffix;
    assert valid(Payload(tr), signature) && Free(signature, '.');
    SpelledFlagVerifies(gen, valid, tr, tick, team, service, signature);
  }
}
