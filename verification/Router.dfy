/** The router: the published index, `DecideRoute` and the reload of the config. */
module Routers {
  import opened Foundations
  import opened ConfigModel
  import opened Validation
  import opened Routing
  import opened RouteIndexing

  datatype ReloadError = ParseFailed(error: ParseError) | InvalidConfig

  /** What loading a decoded document yields: a config that parsed and validated, or nothing. */
  ghost function Loaded(lib: Lib, doc: Option<Document>): Option<ConfigView> {
    if doc.Some? && Parses(lib, doc.value) && Accepted(lib, ParsedView(lib, doc.value))
    then Some(ParsedView(lib, doc.value))
    else None
  }

  ghost function AfterLoad(lib: Lib, published: seq<ConfigView>, doc: Option<Document>): seq<ConfigView> {
    published + if Loaded(lib, doc).Some? then [Loaded(lib, doc).value] else []
  }

  /** The documents that others load, one after the other, at each point of a decision. */
  datatype Reloads = Reloads(
    afterLoad: seq<Option<Document>>, afterExact: seq<Option<Document>>, afterPrefix: seq<Option<Document>>,
    afterRegex: seq<Option<Document>>)

  class Router {
    /** The atomic pointer to the published index. */
    var index: RouteIndex
    /** Every config published so far. */
    ghost var published: seq<ConfigView>

    ghost predicate Valid()
      reads this, index, index.prefix, index.prefix.Repr
    {
      index.Valid() && this !in index.prefix.Repr && |published| > 0 && published[|published| - 1] == index.cfg
    }

    constructor (cfg: ConfigView)
      ensures Valid() && index.cfg == cfg && published == [cfg]
    {
      var idx := NewRouteIndex(cfg);
      index, published := idx, [cfg];
    }

    /** `swapConfig`: the old index is left alone for readers that still hold it. */
    method SwapConfig(cfg: ConfigView)
      modifies this
      ensures Valid() && index.cfg == cfg && fresh(index) && fresh(index.prefix) && fresh(index.prefix.Repr)
      ensures published == old(published) + [cfg]
    {
      var idx := NewRouteIndex(cfg);
      index, published := idx, published + [cfg];
    }

    /** Last known good: the index changes exactly when the document loads. */
    method UpdateConfig(lib: Lib, doc: Option<Document>) returns (err: Option<ReloadError>)
      requires Valid()
      modifies this
      ensures Valid()
      ensures err.None? <==> Loaded(lib, doc).Some?
      ensures err.None? ==> Some(index.cfg) == Loaded(lib, doc) && fresh(index) && fresh(index.prefix.Repr)
      ensures published == AfterLoad(lib, old(published), doc)
      ensures err.Some? ==> index == old(index)
      ensures err == Some(InvalidConfig) <==> doc.Some? && Parses(lib, doc.value) && Loaded(lib, doc).None?
    {
      var parsed := ParseConfig(lib, doc);
      if parsed.Err? { return Some(ParseFailed(parsed.error)); }
      var cfg := parsed.value.View();
      var errs := Validate(lib, cfg);
      if |errs| > 0 { return Some(InvalidConfig); }
      SwapConfig(cfg);
      return None;
    }

    /** `reloadConfig`: the error is only logged and counted. */
    method ReloadConfig(lib: Lib, doc: Option<Document>)
      requires Valid()
      modifies this
      ensures Valid() && published == AfterLoad(lib, old(published), doc)
      ensures if Loaded(lib, doc).Some? then fresh(index.prefix.Repr) else index == old(index)
    {
      var _ := UpdateConfig(lib, doc);
    }

    /** An index that a request loaded: no later publication writes to it. */
    ghost predicate Held(idx: RouteIndex)
      reads idx, idx.prefix, idx.prefix.Repr
    {
      idx.Valid() && this !in idx.prefix.Repr
    }

    /** Other goroutines publish configs while a request holds an index. */
    method Interfere(lib: Lib, docs: seq<Option<Document>>, idx: RouteIndex)
      requires Valid() && Held(idx)
      modifies this
      ensures Valid() && Held(idx)
    {
      if docs == [] { return; }
      ReloadConfig(lib, docs[0]);
      Interfere(lib, docs[1..], idx);
    }

    // Each lookup on the held index, followed by what others publish.

    method TryExact(lib: Lib, idx: RouteIndex, r: Request, path: Bytes, docs: seq<Option<Document>>)
      returns (c: Option<Candidate>)
      requires Valid() && Held(idx)
      modifies this
      ensures Valid() && Held(idx) && c == ExactCandidate(lib, idx.cfg.routes, r, path)
    {
      c := idx.MatchExact(lib, r, path);
      Interfere(lib, docs, idx);
    }

    method TryPrefix(lib: Lib, idx: RouteIndex, r: Request, path: Bytes, docs: seq<Option<Document>>)
      returns (c: Option<Candidate>)
      requires Valid() && Held(idx)
      modifies this
      ensures Valid() && Held(idx) && c == LongestPrefix(lib, idx.cfg.routes, r, path, 0)
    {
      c := idx.MatchPrefix(lib, r, path);
      Interfere(lib, docs, idx);
    }

    method TryRegex(lib: Lib, idx: RouteIndex, r: Request, path: Bytes, docs: seq<Option<Document>>)
      returns (c: Option<Candidate>)
      requires Valid() && Held(idx)
      modifies this
      ensures Valid() && Held(idx) && c == RegexCandidate(lib, idx.cfg.routes, r, path)
    {
      c := idx.MatchRegex(lib, r, path);
      Interfere(lib, docs, idx);
    }

    method Find(lib: Lib, idx: RouteIndex, r: Request, path: Bytes, reloads: Reloads) returns (c: Option<Candidate>)
      requires Valid() && Held(idx)
      modifies this
      ensures Valid() && Held(idx) && c == IndexCandidate(lib, idx.cfg.routes, r, path)
    {
      Interfere(lib, reloads.afterLoad, idx);
      c := TryExact(lib, idx, r, path, reloads.afterExact);
      if c.Some? { return; }
      c := TryPrefix(lib, idx, r, path, reloads.afterPrefix);
      if c.Some? { return; }
      c := TryRegex(lib, idx, r, path, reloads.afterRegex);
    }

    method Conclude(lib: Lib, idx: RouteIndex, r: Request, c: Option<Candidate>)
      returns (d: Result<Decision, RouteError>)
      requires idx.Valid() && r.url.Some? && r.url.value != []
      requires c == IndexCandidate(lib, idx.cfg.routes, r, r.url.value)
      ensures IsDecision(lib, idx.cfg, r, d)
    {
      CandidateDecides(lib, idx.cfg, r);
      if c.None? { return Err(RouteNotFound); }
      d := idx.Finalize(lib, c.value, r, r.url.value);
    }

    /** However often the index is replaced between the lookups, the decision is the documented one
        for the config that was published when the index was loaded, once. */
    method DecideRoute(lib: Lib, r: Request, reloads: Reloads) returns (d: Result<Decision, RouteError>)
      requires Valid()
      modifies this
      ensures Valid() && IsDecision(lib, old(index.cfg), r, d)
    {
      if r.url.None? || r.url.value == [] { return Err(EmptyUrl); }
      var idx := index;
      var c := Find(lib, idx, r, r.url.value, reloads);
      d := Conclude(lib, idx, r, c);
    }
  }
}
