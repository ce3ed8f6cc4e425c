/** The parser registry: which requests are served at all. Its keys are made of manufacturer
    and model as the cache's are, and every registered name is free of bars, so a request that
    gets past it is free of bars too. */
module ParserRegistry {
  import opened Basics
  import opened AsciiText
  import opened DeviceCaching

  /** What a parser is registered under; its Parse is a parameter of the service. */
  datatype Parser = Parser(manufacturer: string, model: string)

  const ULOGGER_PARSER: Parser := Parser("comet", "UxxxxM")

  const WEBSENSOR_MODELS: seq<string> := [
    "TA3610", "TA3611", "TA7610", "TA4611", "TA0610", "TA7611", "TA5640", "TA4621", "TA3621", "TA3645",
    "TA7640", "PA8652", "PA8611", "PA8641", "PA8610"]

  const SOAP_MODELS: seq<string> := [
    "T3511", "T4511", "T7511", "T2514", "T0510", "T3510", "T7510", "T0610", "T4611", "T3610", "T3611", "T7610",
    "T7611", "T7613D", "T5540", "T6540", "T5541", "T6541", "T6640", "T5640", "T5545", "T6545", "T5641", "T6641"]

  /** device.Key. */
  function PairKey(manufacturer: string, model: string): string {
    Normalize(manufacturer) + SEPARATOR + Normalize(model)
  }

  function RegisterAll(parsers: seq<Parser>): map<string, Parser> {
    if parsers == [] then map[]
    else
      var last := parsers[|parsers| - 1];
      RegisterAll(parsers[..|parsers| - 1])[PairKey(last.manufacturer, last.model) := last]
  }

  function CometParsers(models: seq<string>): (r: seq<Parser>)
    ensures |r| == |models|
    ensures forall i :: 0 <= i < |models| ==> r[i] == Parser("comet", models[i])
  {
    seq(|models|, i requires 0 <= i < |models| => Parser("comet", models[i]))
  }

  /** What main registers, in order. */
  function MainParsers(): seq<Parser> {
    [ULOGGER_PARSER] + CometParsers(WEBSENSOR_MODELS) + CometParsers(SOAP_MODELS)
  }

  /** A request for this manufacturer and model is handed to a parser. */
  predicate Supported(manufacturer: string, model: string) {
    PairKey(manufacturer, model) in RegisterAll(MainParsers())
  }

  // ---- Bars ----

  lemma {:induction false} NoBars(s: string)
    requires '|' !in s
    ensures Bars(s) == 0
  {
    if s != "" { NoBars(s[1..]); }
  }

  lemma ModelsHaveNoBars(model: string)
    requires model == "UxxxxM" || model in WEBSENSOR_MODELS || model in SOAP_MODELS
    ensures '|' !in model
  {
  }

  lemma MainParsersHaveNoBars(i: nat)
    requires i < |MainParsers()|
    ensures Bars(MainParsers()[i].manufacturer) == 0 && Bars(MainParsers()[i].model) == 0
  {
    hide WEBSENSOR_MODELS, SOAP_MODELS;
    var p := MainParsers()[i];
    assert p.manufacturer == "comet";
    assert p.model == "UxxxxM" || p.model in WEBSENSOR_MODELS || p.model in SOAP_MODELS;
    ModelsHaveNoBars(p.model);
    NoBars("comet");
    NoBars(p.model);
  }

  /** Every entry of a registry is one of the parsers registered, under its own key. */
  lemma {:induction false} RegisteredFrom(parsers: seq<Parser>, key: string) returns (i: nat)
    requires key in RegisterAll(parsers)
    ensures i < |parsers| && RegisterAll(parsers)[key] == parsers[i]
    ensures PairKey(parsers[i].manufacturer, parsers[i].model) == key
  {
    i := |parsers| - 1;
    if PairKey(parsers[i].manufacturer, parsers[i].model) != key {
      i := RegisteredFrom(parsers[..i], key);
    }
  }

  /** A supported request has no bar in its manufacturer or model, and its parser is the one
      registered for exactly that manufacturer and model, up to normalization. */
  lemma SupportedHasNoBars(manufacturer: string, model: string)
    requires Supported(manufacturer, model)
    ensures Bars(manufacturer) == 0 && Bars(model) == 0
    ensures var p := RegisterAll(MainParsers())[PairKey(manufacturer, model)];
            Normalize(p.manufacturer) == Normalize(manufacturer) && Normalize(p.model) == Normalize(model)
  {
    var i := RegisteredFrom(MainParsers(), PairKey(manufacturer, model));
    var p := MainParsers()[i];
    MainParsersHaveNoBars(i);
    BarsOfPair(manufacturer, model);
    BarsOfPair(p.manufacturer, p.model);
    NormalizeKeepsBars(manufacturer);
    NormalizeKeepsBars(p.manufacturer);
    CutAtBar(Normalize(manufacturer), Normalize(model), Normalize(p.manufacturer), Normalize(p.model));
  }

  /** The registered name of the U logger in lower case is supported. */
  lemma ULoggerIsSupported()
    ensures Supported("comet", "uxxxxm")
  {
    TightStays("UxxxxM");
    TightStays("uxxxxm");
    assert ToLower("UxxxxM") == "uxxxxm" == ToLower("uxxxxm");
    var parsers := MainParsers();
    assert parsers[0] == ULOGGER_PARSER;
    RegisteredStays(parsers, 0);
  }

  lemma {:induction false} RegisteredStays(parsers: seq<Parser>, i: nat)
    requires i < |parsers|
    ensures PairKey(parsers[i].manufacturer, parsers[i].model) in RegisterAll(parsers)
    decreases |parsers|
  {
    if i < |parsers| - 1 { RegisteredStays(parsers[..|parsers| - 1], i); }
  }

  // ---- The class ----

  class Registry {
    var parsers: map<string, Parser>

    constructor ()
      ensures parsers == map[]
    {
      parsers := map[];
    }

    method Register(parser: Parser)
      modifies this
      ensures parsers == old(parsers)[PairKey(parser.manufacturer, parser.model) := parser]
    {
      parsers := parsers[PairKey(parser.manufacturer, parser.model) := parser];
    }

    method Lookup(manufacturer: string, model: string) returns (r: Option<Parser>)
      ensures var key := PairKey(manufacturer, model);
              r == if key in parsers then Some(parsers[key]) else None
    {
      var key := PairKey(manufacturer, model);
      r := if key in parsers then Some(parsers[key]) else None;
    }
  }

  lemma RegisterNext(parsers: seq<Parser>, models: seq<string>, i: nat)
    requires i < |models|
    ensures RegisterAll(parsers + CometParsers(models[..i + 1]))
         == RegisterAll(parsers + CometParsers(models[..i]))[PairKey("comet", models[i]) := Parser("comet", models[i])]
  {
    var all := parsers + CometParsers(models[..i + 1]);
    assert all[..|all| - 1] == parsers + CometParsers(models[..i]);
  }

  /** The registration part of main: afterwards exactly the supported requests find a parser. */
  method MainRegistry() returns (registry: Registry)
    ensures fresh(registry) && registry.parsers == RegisterAll(MainParsers())
  {
    hide RegisterAll, PairKey, WEBSENSOR_MODELS, SOAP_MODELS;
    registry := new Registry();
    registry.Register(ULOGGER_PARSER);
    ghost var first := [ULOGGER_PARSER];
    FirstRegistered();
    assert first + CometParsers(WEBSENSOR_MODELS[..0]) == first;
    for i := 0 to |WEBSENSOR_MODELS|
      invariant fresh(registry) && registry.parsers == RegisterAll(first + CometParsers(WEBSENSOR_MODELS[..i]))
    {
      registry.Register(Parser("comet", WEBSENSOR_MODELS[i]));
      RegisterNext(first, WEBSENSOR_MODELS, i);
    }
    assert WEBSENSOR_MODELS[..|WEBSENSOR_MODELS|] == WEBSENSOR_MODELS;
    ghost var second := first + CometParsers(WEBSENSOR_MODELS);
    assert second + CometParsers(SOAP_MODELS[..0]) == second;
    for i := 0 to |SOAP_MODELS|
      invariant fresh(registry) && registry.parsers == RegisterAll(second + CometParsers(SOAP_MODELS[..i]))
    {
      registry.Register(Parser("comet", SOAP_MODELS[i]));
      RegisterNext(second, SOAP_MODELS, i);
    }
    assert SOAP_MODELS[..|SOAP_MODELS|] == SOAP_MODELS;
  }

  lemma FirstRegistered()
    ensures RegisterAll([ULOGGER_PARSER])
         == map[PairKey(ULOGGER_PARSER.manufacturer, ULOGGER_PARSER.model) := ULOGGER_PARSER]
  {
    assert [ULOGGER_PARSER][..0] == [];
  }
}
