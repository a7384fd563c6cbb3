/**
  The text of a flag: `prefix tick.team.service.signature suffix`.

  The signature scheme is Ed25519 (RFC 8032), written in unpadded base64url (section 5 of RFC 4648).
  It stays abstract: `sign` gives the signature text of some data and `valid` checks one.
 */
module Codec {
  import opened GoValues
  import opened Text

  datatype Triple = Triple(tick: int, team: int, service: int) {
    predicate Fits() {
      FitsInt64(tick) && FitsInt64(team) && FitsInt64(service)
    }
  }

  datatype FlagGenerator = FlagGenerator(prefix: string, suffix: string)

  type SignFunction = string -> string
  type ValidFunction = (string, string) -> bool

  /** A signature of some data is accepted for that data, and its alphabet has no dot. */
  ghost predicate SignerCorrect(sign: SignFunction, valid: ValidFunction) {
    forall data :: valid(data, sign(data)) && Free(sign(data), '.')
  }

  /** What a signature covers. */
  function Payload(tr: Triple): string {
    PrintInt(tr.tick) + ("." + (PrintInt(tr.team) + ("." + PrintInt(tr.service))))
  }

  function Generate(gen: FlagGenerator, tr: Triple, sign: SignFunction): string {
    gen.prefix + (Payload(tr) + "." + sign(Payload(tr))) + gen.suffix
  }

  /** The triple of an accepted flag; `None` when the flag is rejected. */
  function Verify(gen: FlagGenerator, valid: ValidFunction, flag: string): Option<Triple> {
    if !HasPrefix(flag, gen.prefix) || !HasSuffix(flag, gen.suffix) then None
    else
      var tokens := Split(TrimSuffix(TrimPrefix(flag, gen.prefix), gen.suffix), '.');
      if |tokens| != 4 then None
      else
        var tick, team, service := Atoi(tokens[0]), Atoi(tokens[1]), Atoi(tokens[2]);
        if tick.None? || team.None? || service.None? then None
        else
          var tr := Triple(tick.value, team.value, service.value);
          if valid(Payload(tr), tokens[3]) then Some(tr) else None
  }

  /** Some spelling of a triple: any texts that `Atoi` reads as its numbers. */
  predicate Spells(tr: Triple, tick: string, team: string, service: string) {
    Atoi(tick) == Some(tr.tick) && Atoi(team) == Some(tr.team) && Atoi(service) == Some(tr.service)
  }

  function Spelled(tick: string, team: string, service: string, signature: string): string {
    tick + ("." + (team + ("." + (service + ("." + signature)))))
  }

  lemma SpelledIsJoin(tick: string, team: string, service: string, signature: string)
    ensures Spelled(tick, team, service, signature) == Join([tick, team, service, signature], '.')
  {
    JoinFour(tick, team, service, signature, '.');
  }

  lemma SpelledIsPayload(a: string, b: string, c: string, signature: string)
    ensures a + ("." + (b + ("." + c))) + "." + signature == Spelled(a, b, c, signature)
  {
  }

  /** The text of a flag: three decimal numbers and a signature of the numbers, all between dots. */
  lemma FlagText(gen: FlagGenerator, tr: Triple, sign: SignFunction)
    ensures var numbers := [PrintInt(tr.tick), PrintInt(tr.team), PrintInt(tr.service)];
            Generate(gen, tr, sign) ==
            gen.prefix + Join(numbers + [sign(Join(numbers, '.'))], '.') + gen.suffix
  {
    var tick, team, service := PrintInt(tr.tick), PrintInt(tr.team), PrintInt(tr.service);
    var numbers, signature := [tick, team, service], sign(Payload(tr));
    assert numbers[1..] == [team, service] && numbers[1..][1..] == [service];
    assert Join([team, service], '.') == team + ("." + service);
    assert Join(numbers, '.') == tick + ("." + (team + ("." + service)));
    assert numbers + [signature] == [tick, team, service, signature];
    JoinFour(tick, team, service, signature, '.');
    SpelledIsPayload(tick, team, service, signature);
  }

  lemma AtoiFreeOfDots(s: string)
    requires Atoi(s).Some?
    ensures Free(s, '.')
  {
  }

  lemma FourTokens(body: string)
    requires |Split(body, '.')| == 4
    ensures var tokens := Split(body, '.'); body == Spelled(tokens[0], tokens[1], tokens[2], tokens[3])
  {
    var tokens := Split(body, '.');
    JoinOfSplit(body, '.');
    assert tokens == [tokens[0], tokens[1], tokens[2], tokens[3]];
    SpelledIsJoin(tokens[0], tokens[1], tokens[2], tokens[3]);
  }

  lemma TokensOfSpelling(tr: Triple, tick: string, team: string, service: string, signature: string)
    requires Spells(tr, tick, team, service) && Free(signature, '.')
    ensures Split(Spelled(tick, team, service, signature), '.') == [tick, team, service, signature]
  {
    AtoiFreeOfDots(tick);
    AtoiFreeOfDots(team);
    AtoiFreeOfDots(service);
    SpelledIsJoin(tick, team, service, signature);
    SplitOfJoin([tick, team, service, signature], '.');
  }

  /**
    Exactly which strings are accepted: the prefix, a body, the suffix, where the body is any spelling of the
    triple followed by a signature of the triple's canonical text. A string in which prefix and suffix overlap
    has the body that remains after the prefix is cut off.
   */
  lemma VerifyAccepts(gen: FlagGenerator, valid: ValidFunction, flag: string, tr: Triple)
    ensures Verify(gen, valid, flag) == Some(tr) <==>
            && HasPrefix(flag, gen.prefix) && HasSuffix(flag, gen.suffix)
            && exists tick, team, service, signature ::
                 && TrimSuffix(TrimPrefix(flag, gen.prefix), gen.suffix) == Spelled(tick, team, service, signature)
                 && Spells(tr, tick, team, service)
                 && Free(signature, '.')
                 && valid(Payload(tr), signature)
  {
    var body := TrimSuffix(TrimPrefix(flag, gen.prefix), gen.suffix);
    if Verify(gen, valid, flag) == Some(tr) {
      FourTokens(body);
    }
    forall tick, team, service, signature |
      body == Spelled(tick, team, service, signature) && Spells(tr, tick, team, service) && Free(signature, '.')
      ensures Split(body, '.') == [tick, team, service, signature]
    {
      TokensOfSpelling(tr, tick, team, service, signature);
    }
  }

  /** Verifying a flag that spells `tr` in any way gives back `tr`, for any prefix and suffix. */
  lemma SpelledFlagVerifies(gen: FlagGenerator, valid: ValidFunction, tr: Triple,
                            tick: string, team: string, service: string, signature: string)
    requires Spells(tr, tick, team, service) && Free(signature, '.') && valid(Payload(tr), signature)
    ensures Verify(gen, valid, gen.prefix + Spelled(tick, team, service, signature) + gen.suffix) == Some(tr)
  {
    TrimBoth(gen.prefix, Spelled(tick, team, service, signature), gen.suffix);
    VerifyAccepts(gen, valid, gen.prefix + Spelled(tick, team, service, signature) + gen.suffix, tr);
  }

  /** A generated flag verifies as exactly the triple it was generated for. */
  lemma VerifyOfGenerate(gen: FlagGenerator, sign: SignFunction, valid: ValidFunction, tr: Triple)
    requires SignerCorrect(sign, valid) && tr.Fits()
    ensures Verify(gen, valid, Generate(gen, tr, sign)) == Some(tr)
  {
    var data := Payload(tr);
    var tick, team, service := PrintInt(tr.tick), PrintInt(tr.team), PrintInt(tr.service);
    AtoiOfPrint(tr.tick);
    AtoiOfPrint(tr.team);
    AtoiOfPrint(tr.service);
    assert valid(data, sign(data));
    SpelledFlagVerifies(gen, valid, tr, tick, team, service, sign(data));
    SpelledIsPayload(tick, team, service, sign(data));
  }

  /** Different triples have different flags. */
  lemma GenerateInjective(gen: FlagGenerator, sign: SignFunction, a: Triple, b: Triple)
    requires (forall data :: Free(sign(data), '.')) && a.Fits() && b.Fits()
    requires Generate(gen, a, sign) == Generate(gen, b, sign)
    ensures a == b
  {
    var valid: ValidFunction := (data, signature) => sign(data) == signature;
    VerifyOfGenerate(gen, sign, valid, a);
    VerifyOfGenerate(gen, sign, valid, b);
  }

  /** The canonical text determines the triple, so a signature covers one triple only. */
  lemma {:induction false} PayloadInjective(a: Triple, b: Triple)
    requires Payload(a) == Payload(b)
    ensures a == b
  {
    PayloadTokens(a);
    PayloadTokens(b);
    PrintIntInjective(a.tick, b.tick);
    PrintIntInjective(a.team, b.team);
    PrintIntInjective(a.service, b.service);
  }

  lemma PayloadTokens(tr: Triple)
    ensures Split(Payload(tr), '.') == [PrintInt(tr.tick), PrintInt(tr.team), PrintInt(tr.service)]
  {
    PrintIntFree(tr.tick, '.');
    PrintIntFree(tr.team, '.');
    PrintIntFree(tr.service, '.');
    ThreeTokens(PrintInt(tr.tick), PrintInt(tr.team), PrintInt(tr.service));
  }

  lemma ThreeTokens(a: string, b: string, c: string)
    requires Free(a, '.') && Free(b, '.') && Free(c, '.')
    ensures Split(a + ("." + (b + ("." + c))), '.') == [a, b, c]
  {
    var tail := b + ("." + c);
    SplitFree(c, '.');
    SplitAtFirst(b, '.', c);
    assert b + ['.'] + c == tail;
    SplitAtFirst(a, '.', tail);
    assert a + ['.'] + tail == a + ("." + tail);
  }

  /** A second spelling of a number that is not negative. */
  lemma OtherSpelling(n: nat)
    requires FitsInt64(n)
    ensures Atoi("0" + PrintInt(n)) == Some(n)
  {
    var digits := PrintInt(n);
    NatValueOfPrint(n);
    LeadingZero(digits);
  }

  /** Under one signature a triple has different texts: with and without a leading zero. */
  lemma TwoSpellings(gen: FlagGenerator, tr: Triple, signature: string)
    requires tr.Fits() && tr.tick >= 0
    ensures var tick, team, service := PrintInt(tr.tick), PrintInt(tr.team), PrintInt(tr.service);
            && Spells(tr, tick, team, service) && Spells(tr, "0" + tick, team, service)
            && gen.prefix + Spelled(tick, team, service, signature) + gen.suffix !=
               gen.prefix + Spelled("0" + tick, team, service, signature) + gen.suffix
  {
    AtoiOfPrint(tr.tick);
    AtoiOfPrint(tr.team);
    AtoiOfPrint(tr.service);
    OtherSpelling(tr.tick);
    var tick, tail := PrintInt(tr.tick), "." + (PrintInt(tr.team) + ("." + (PrintInt(tr.service) + ("." + signature))));
    assert |gen.prefix + (tick + tail) + gen.suffix| < |gen.prefix + ("0" + tick + tail) + gen.suffix|;
  }
}
