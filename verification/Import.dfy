/**
 Importing a batch of outbounds: completion from the link, matching against what is there, fresh names.

 `parse` stands for the link parser and `pick` for the order in which Go walks a map: it chooses among several
 equivalent nodes, possibly differently for every item.
 */
module Import {
  import opened Text
  import opened Config
  import opened Sorting
  import opened Store

  type Parser = string -> Option<Outbound>
  type Picker = (nat, set<string>) -> string

  datatype Options = Options(provider: Provider, fromSubscription: bool)

  datatype Action = Added | Updated | Same

  datatype Detail = Detail(name: string, originalName: string, action: Action, preservedName: bool)

  ghost predicate Picks(pick: Picker) {
    forall i: nat, names: set<string> :: names != {} ==> pick(i, names) in names
  }

  /* ----- preparing one outbound ----- */

  /** `enrichOutboundFromRaw`: fills in what the node lacks from the link it came from. */
  function Enrich(o: Outbound, parse: Parser): Outbound {
    var p := parse(o.raw);
    if !Contains(o.raw, "://") || p.None? then o
    else
      o.(flow := FirstNonEmpty(o.flow, p.value.flow),
         security := FirstNonEmpty(o.security, p.value.security),
         serverName := FirstNonEmpty(o.serverName, p.value.serverName),
         publicKey := FirstNonEmpty(o.publicKey, p.value.publicKey),
         shortID := FirstNonEmpty(o.shortID, p.value.shortID),
         fingerprint := FirstNonEmpty(o.fingerprint, p.value.fingerprint),
         transport := FirstNonEmpty(o.transport, p.value.transport),
         path := FirstNonEmpty(o.path, p.value.path),
         host := FirstNonEmpty(o.host, p.value.host),
         alpn := FirstNonEmpty(o.alpn, p.value.alpn),
         tls := o.tls || p.value.tls,
         skipCertVerify := o.skipCertVerify || p.value.skipCertVerify)
  }

  function Enricher(parse: Parser): Outbound -> Outbound {
    (o: Outbound) => Enrich(o, parse)
  }

  /** `applyProviderImportOptions`. */
  function WithOptions(o: Outbound, opts: Options): Outbound {
    if !opts.fromSubscription then o
    else
      var p := opts.provider;
      o.(subscription := p.name,
         group := FirstNonEmpty(p.group, FirstNonEmpty(o.group, p.name)),
         name := if o.name != "" then p.renamePrefix + o.name + p.renameSuffix else "")
  }

  function Prepared(o: Outbound, opts: Options, parse: Parser): Outbound {
    WithOptions(Enrich(o, parse), opts)
  }

  function Named(o: Outbound): Outbound {
    if o.name == "" then o.(name := ProtocolText(o.protocol) + "-" + o.address) else o
  }

  /* ----- matching ----- */

  datatype Strategy = NoDedup | ByName | ByEquivalence

  function StrategyOf(p: Provider): Strategy {
    var s := ToLower(p.dedupStrategy);
    if s == "none" then NoDedup else if s == "name" then ByName else ByEquivalence
  }

  /** `outboundSignature`: the fields that identify a node, as one text. */
  function Signature(o: Outbound): string {
    ProtocolText(o.protocol) + "|" + o.address + "|" + Itoa(o.port) + "|" + o.username + "|" + o.uuid + "|" + o.password
    + "|" + o.cipher + "|" + o.publicKey + "|" + o.shortID + "|" + o.transport
  }

  predicate Equivalent(a: Outbound, b: Outbound) {
    && Signature(a) == Signature(b)
    && a.flow == b.flow && a.fingerprint == b.fingerprint && a.alpn == b.alpn
    && a.path == b.path && a.host == b.host && a.skipCertVerify == b.skipCertVerify
  }

  function EquivalentNames(outbounds: map<string, Outbound>, signature: string): set<string> {
    set name | name in outbounds && Signature(outbounds[name]) == signature
  }

  /** The name of the node that the outbound stands for already, "" when there is none. */
  function Matching(outbounds: map<string, Outbound>, o: Outbound, p: Provider, i: nat, pick: Picker): string
    requires Picks(pick)
  {
    match StrategyOf(p)
    case NoDedup => ""
    case ByName => if o.name in outbounds then o.name else ""
    case ByEquivalence =>
      var names := EquivalentNames(outbounds, Signature(o));
      if names == {} then "" else outbounds[pick(i, names)].name
  }

  /* ----- what the user's own settings keep ----- */

  datatype Field = NameField | DisabledField | ServerNameField | SkipCertField | FingerprintField | AlpnField | FlowField
                 | TransportField | PathField | HostField | GroupField | UnknownField

  function FieldOf(text: string): Field {
    var t := ToLower(TrimSpace(text));
    if t == "name" then NameField
    else if t == "disabled" || t == "enabled" then DisabledField
    else if t == "server_name" || t == "sni" then ServerNameField
    else if t == "skip_cert_verify" || t == "insecure" then SkipCertField
    else if t == "fingerprint" || t == "fp" then FingerprintField
    else if t == "alpn" then AlpnField
    else if t == "flow" then FlowField
    else if t == "transport" || t == "network" then TransportField
    else if t == "path" then PathField
    else if t == "host" then HostField
    else if t == "group" then GroupField
    else UnknownField
  }

  function KeepField(existing: Outbound, incoming: Outbound, field: Field): Outbound {
    match field
    case NameField => incoming.(name := existing.name)
    case DisabledField => incoming.(disabled := existing.disabled)
    case ServerNameField => incoming.(serverName := existing.serverName)
    case SkipCertField => incoming.(skipCertVerify := existing.skipCertVerify)
    case FingerprintField => incoming.(fingerprint := existing.fingerprint)
    case AlpnField => incoming.(alpn := existing.alpn)
    case FlowField => incoming.(flow := existing.flow)
    case TransportField => incoming.(transport := existing.transport, network := existing.network)
    case PathField => incoming.(path := existing.path)
    case HostField => incoming.(host := existing.host)
    case GroupField => incoming.(group := existing.group)
    case UnknownField => incoming
  }

  function KeptFields(opts: Options): seq<Field> {
    var p := opts.provider;
    if !opts.fromSubscription || !(p.preserveUserFields || p.preserveFields != []) then []
    else if p.preserveFields == [] then
      [NameField, DisabledField, ServerNameField, SkipCertField, FingerprintField, AlpnField, GroupField]
    else Map(FieldOf, p.preserveFields)
  }

  /** `mergePreservedOutboundFields`. */
  function Merge(existing: Outbound, incoming: Outbound, fields: seq<Field>): Outbound {
    if fields == [] then incoming
    else KeepField(existing, Merge(existing, incoming, fields[..|fields| - 1]), fields[|fields| - 1])
  }

  /* ----- fresh names ----- */

  function ReplaceNewlines(s: string): string {
    seq(|s|, i requires 0 <= i < |s| => if s[i] == '\n' then ' ' else s[i])
  }

  function SanitizeName(name: string): string {
    var s := ReplaceNewlines(TrimSpace(name));
    if |s| > 80 then s[..80] else s
  }

  function Candidate(name: string, i: nat): string {
    name + "-" + Decimal(i)
  }

  lemma CandidatesInjective(name: string, i: nat, j: nat)
    requires Candidate(name, i) == Candidate(name, j)
    ensures i == j
  {
    assert Candidate(name, i)[|name| + 1..] == Decimal(i);
    assert Candidate(name, j)[|name| + 1..] == Decimal(j);
    DecimalInjective(i, j);
  }

  // The names in use that the search has not yet tried.
  ghost function Untried(taken: set<string>, name: string, from: nat): set<string> {
    set n | n in taken && exists j: nat :: from <= j && n == Candidate(name, j)
  }

  lemma UntriedShrinks(taken: set<string>, name: string, i: nat)
    requires Candidate(name, i) in taken
    ensures Untried(taken, name, i + 1) < Untried(taken, name, i)
    ensures |Untried(taken, name, i + 1)| < |Untried(taken, name, i)|
  {
    var smaller, larger := Untried(taken, name, i + 1), Untried(taken, name, i);
    assert Candidate(name, i) in larger;
    if Candidate(name, i) in smaller {
      var j: nat :| i + 1 <= j && Candidate(name, i) == Candidate(name, j);
      CandidatesInjective(name, i, j);
    }
    SubsetSize(smaller, larger, Candidate(name, i));
  }

  lemma SubsetSize<T>(smaller: set<T>, larger: set<T>, x: T)
    requires smaller <= larger && x in larger && x !in smaller
    ensures |smaller| < |larger|
  {
    SubsetCardinality(smaller, larger - {x});
  }

  lemma {:induction false} SubsetCardinality<T>(smaller: set<T>, larger: set<T>)
    requires smaller <= larger
    ensures |smaller| <= |larger|
  {
    if smaller != {} {
      var x :| x in smaller;
      SubsetCardinality(smaller - {x}, larger - {x});
    }
  }

  /** The least number from `i` on whose candidate is free; the search gives up one name in use per step. */
  function FirstFree(taken: set<string>, name: string, i: nat): (k: nat)
    ensures i <= k <= i + |Untried(taken, name, i)|
    ensures Candidate(name, k) !in taken
    ensures forall j :: i <= j < k ==> Candidate(name, j) in taken
    decreases Untried(taken, name, i)
  {
    if Candidate(name, i) !in taken then i
    else
      UntriedShrinks(taken, name, i);
      FirstFree(taken, name, i + 1)
  }

  function FreshName(taken: set<string>, name: string): string {
    var base := SanitizeName(name);
    if base !in taken then base else Candidate(base, FirstFree(taken, base, 2))
  }

  /** The name is new, and was found within one more try than there are names in use. */
  lemma FreshNameIsFresh(taken: set<string>, name: string)
    ensures FreshName(taken, name) !in taken
    ensures var base := SanitizeName(name);
      base in taken ==>
        exists k: nat :: 2 <= k <= |taken| + 1 && FreshName(taken, name) == Candidate(base, k)
                         && forall j :: 2 <= j < k ==> Candidate(base, j) in taken
  {
    var base := SanitizeName(name);
    if base in taken {
      var untried := Untried(taken, base, 2);
      assert forall j: nat :: |Candidate(base, j)| > |base|;
      SubsetSize(untried, taken, base);
      var k := FirstFree(taken, base, 2);
      assert 2 <= k <= |taken| + 1 && FreshName(taken, name) == Candidate(base, k);
    }
  }

  /** `uniqueOutboundNameLocked`. */
  method UniqueOutboundName(taken: set<string>, name: string) returns (unique: string)
    ensures unique == FreshName(taken, name)
  {
    var base := SanitizeName(name);
    if base !in taken {
      return base;
    }
    var i := 2;
    while Candidate(base, i) in taken
      invariant i <= FirstFree(taken, base, 2)
      invariant forall j :: 2 <= j < i ==> Candidate(base, j) in taken
      decreases FirstFree(taken, base, 2) - i
    {
      i := i + 1;
    }
    return Candidate(base, i);
  }

  /* ----- one item, and a batch ----- */

  predicate Acceptable(o: Outbound) {
    o.protocol != OtherProtocol("") && o.address != "" && ValidPort(o.port) && OutboundOk(o)
  }

  datatype ItemResult = Bad | Good(outbound: Outbound, detail: Detail)

  function ImportItem(outbounds: map<string, Outbound>, i: nat, o: Outbound, opts: Options, parse: Parser, pick: Picker): ItemResult
    requires Picks(pick)
  {
    var prepared := Prepared(o, opts, parse);
    var named := Named(prepared);
    var existing := Matching(outbounds, named, opts.provider, i, pick);
    var next :=
      if existing == "" then named.(name := FreshName(outbounds.Keys, named.name))
      else (if existing in outbounds then Merge(outbounds[existing], named, KeptFields(opts)) else named).(name := existing);
    var action :=
      if existing == "" then Added
      else if existing in outbounds && Equivalent(outbounds[existing], named) then Same
      else Updated;
    if !Acceptable(next) then Bad
    else Good(next, Detail(next.name, prepared.name, action, existing != "" && existing != prepared.name))
  }

  function AddOutbound(s: State, o: Outbound): State {
    Watched(PutOutbound(s, o), o.name, o.disabled)
  }

  datatype BatchResult = Stopped(left: State) | Finished(next: State, details: seq<Detail>)

  function ImportBatch(s: State, batch: seq<Outbound>, opts: Options, parse: Parser, pick: Picker): BatchResult
    requires Picks(pick)
  {
    if batch == [] then Finished(s, [])
    else
      match ImportBatch(s, batch[..|batch| - 1], opts, parse, pick)
      case Stopped(left) => Stopped(left)
      case Finished(t, details) =>
        match ImportItem(t.outbounds, |batch| - 1, batch[|batch| - 1], opts, parse, pick)
        case Bad => Stopped(t)
        case Good(o, detail) => Finished(AddOutbound(t, o), details + [detail])
  }

  /** `ImportOutboundsReportWithOptions` up to its commit: an unacceptable item ends it without restoring anything. */
  function ImportOutbounds(s: State, batch: seq<Outbound>, opts: Options, parse: Parser, pick: Picker): Edit
    requires Picks(pick)
  {
    if batch == [] then Unchanged(s)
    else
      match ImportBatch(s, batch, opts, parse, pick)
      case Stopped(left) => Refuse(Refused, left)
      case Finished(next, _) => Proceed(next)
  }

  function Count(details: seq<Detail>, action: Action): nat {
    if details == [] then 0
    else Count(details[..|details| - 1], action) + if details[|details| - 1].action == action then 1 else 0
  }

  // A batch that stops within its first `n` items stops there.
  lemma {:induction false} ImportBatchStops(s: State, batch: seq<Outbound>, n: nat, opts: Options, parse: Parser, pick: Picker)
    requires Picks(pick) && n <= |batch| && ImportBatch(s, batch[..n], opts, parse, pick).Stopped?
    ensures ImportBatch(s, batch, opts, parse, pick) == ImportBatch(s, batch[..n], opts, parse, pick)
  {
    hide ImportItem;
    if n < |batch| {
      assert batch[..|batch| - 1][..n] == batch[..n];
      ImportBatchStops(s, batch[..|batch| - 1], n, opts, parse, pick);
    } else {
      assert batch[..n] == batch;
    }
  }

  /* ----- accounting ----- */

  lemma ImportItemFits(s: State, i: nat, o: Outbound, opts: Options, parse: Parser, pick: Picker)
    requires Consistent(s) && Picks(pick)
    requires ImportItem(s.outbounds, i, o, opts, parse, pick).Good?
    ensures var r := ImportItem(s.outbounds, i, o, opts, parse, pick);
      && r.outbound.name == r.detail.name
      && (r.detail.action == Added <==> r.outbound.name !in s.outbounds)
      && Acceptable(r.outbound)
  {
    hide Signature, FieldOf, KeptFields, Prepared, StrategyOf, FreshName, Acceptable, Merge;
    var named := Named(Prepared(o, opts, parse));
    FreshNameIsFresh(s.outbounds.Keys, named.name);
    if StrategyOf(opts.provider).ByEquivalence? {
      var names := EquivalentNames(s.outbounds, Signature(named));
      if names != {} {
        var name := pick(i, names);
        assert name in names;
        var k :| 0 <= k < |s.cfg.outbounds| && OutboundName(s.cfg.outbounds[k]) == name;
        assert s.outbounds[name].name == name;
      }
    }
  }

  lemma AddOutboundConsistent(s: State, o: Outbound)
    requires Consistent(s)
    ensures var t := AddOutbound(s, o);
      && Consistent(t)
      && t.outbounds == s.outbounds[o.name := o]
      && |t.cfg.outbounds| == |s.cfg.outbounds| + (if o.name in s.outbounds then 0 else 1)
      && (OutboundsWatched(s) ==> OutboundsWatched(t))
  {
    hide Upsert, Distinct, Keyed;
    UpsertKeyed(s.cfg.outbounds, OutboundName, o, s.outbounds);
    assert OutboundName(o) == o.name;
  }

  /** Every item is counted once; the list grows by the number added, and no name that was there goes away. */
  lemma {:induction false} ImportAccounting(s: State, batch: seq<Outbound>, opts: Options, parse: Parser, pick: Picker)
    requires Consistent(s) && Picks(pick)
    requires ImportBatch(s, batch, opts, parse, pick).Finished?
    ensures var Finished(t, details) := ImportBatch(s, batch, opts, parse, pick);
      && Count(details, Added) + Count(details, Updated) + Count(details, Same) == |details| == |batch|
      && |t.cfg.outbounds| == |s.cfg.outbounds| + Count(details, Added)
      && s.outbounds.Keys <= t.outbounds.Keys
      && Consistent(t)
  {
    hide ImportItem, Consistent, AddOutbound;
    if batch != [] {
      var front, n := batch[..|batch| - 1], |batch| - 1;
      ImportAccounting(s, front, opts, parse, pick);
      var Finished(t, details) := ImportBatch(s, front, opts, parse, pick);
      var Good(o, detail) := ImportItem(t.outbounds, n, batch[n], opts, parse, pick);
      ImportItemFits(t, n, batch[n], opts, parse, pick);
      AddOutboundConsistent(t, o);
      assert (details + [detail])[..|details|] == details;
    }
  }

  // The items before the `k`th are imported, giving `left`; the `k`th is unacceptable.
  ghost predicate StopsAt(s: State, batch: seq<Outbound>, k: nat, opts: Options, parse: Parser, pick: Picker, left: State)
    requires Picks(pick) && k < |batch|
  {
    var before := ImportBatch(s, batch[..k], opts, parse, pick);
    && before.Finished? && before.next == left
    && ImportItem(left.outbounds, k, batch[k], opts, parse, pick).Bad?
  }

  /** An import that stops leaves exactly what the items before the bad one have added. */
  lemma {:induction false} StoppedImportKeepsPrefix(s: State, batch: seq<Outbound>, opts: Options, parse: Parser, pick: Picker)
    requires Picks(pick) && ImportBatch(s, batch, opts, parse, pick).Stopped?
    ensures exists k :: 0 <= k < |batch| && StopsAt(s, batch, k, opts, parse, pick, ImportBatch(s, batch, opts, parse, pick).left)
  {
    hide ImportItem, AddOutbound;
    var front := batch[..|batch| - 1];
    var before := ImportBatch(s, front, opts, parse, pick);
    if before.Stopped? {
      StoppedImportKeepsPrefix(s, front, opts, parse, pick);
      var k :| 0 <= k < |front| && StopsAt(s, front, k, opts, parse, pick, before.left);
      assert front[..k] == batch[..k] && front[k] == batch[k];
      assert StopsAt(s, batch, k, opts, parse, pick, before.left);
    } else {
      assert StopsAt(s, batch, |batch| - 1, opts, parse, pick, before.next);
    }
  }

  lemma {:induction false} StoppedImportConsistent(s: State, batch: seq<Outbound>, opts: Options, parse: Parser, pick: Picker)
    requires Consistent(s) && Picks(pick)
    ensures match ImportBatch(s, batch, opts, parse, pick)
      case Stopped(left) => Consistent(left) && (OutboundsWatched(s) ==> OutboundsWatched(left))
      case Finished(next, _) => Consistent(next) && (OutboundsWatched(s) ==> OutboundsWatched(next))
  {
    hide ImportItem, Consistent, AddOutbound, OutboundsWatched;
    if batch != [] {
      var front, n := batch[..|batch| - 1], |batch| - 1;
      StoppedImportConsistent(s, front, opts, parse, pick);
      match ImportBatch(s, front, opts, parse, pick) {
        case Stopped(_) =>
        case Finished(t, _) =>
          match ImportItem(t.outbounds, n, batch[n], opts, parse, pick) {
            case Bad =>
            case Good(o, _) => AddOutboundConsistent(t, o);
          }
      }
    }
  }

  /* ----- importing twice ----- */

  function Signatures(outbounds: map<string, Outbound>): set<string> {
    set name | name in outbounds :: Signature(outbounds[name])
  }

  predicate SameIdentity(a: Outbound, b: Outbound) {
    && a.protocol == b.protocol && a.address == b.address && a.port == b.port
    && a.username == b.username && a.uuid == b.uuid && a.password == b.password && a.cipher == b.cipher
    && a.publicKey == b.publicKey && a.shortID == b.shortID && a.transport == b.transport
    && a.obfsPassword == b.obfsPassword
  }

  lemma {:induction false} MergeKeepsIdentity(existing: Outbound, incoming: Outbound, fields: seq<Field>)
    requires TransportField !in fields
    ensures SameIdentity(Merge(existing, incoming, fields), incoming)
  {
    hide KeepField;
    if fields != [] {
      MergeKeepsIdentity(existing, incoming, fields[..|fields| - 1]);
      assert fields[|fields| - 1] in fields;
      KeepFieldKeepsIdentity(existing, Merge(existing, incoming, fields[..|fields| - 1]), fields[|fields| - 1]);
    }
  }

  lemma KeepFieldKeepsIdentity(existing: Outbound, incoming: Outbound, field: Field)
    requires field != TransportField
    ensures SameIdentity(KeepField(existing, incoming, field), incoming)
  {}

  lemma SameIdentityMeans(a: Outbound, b: Outbound, name: string)
    requires SameIdentity(a, b)
    ensures Signature(a.(name := name)) == Signature(b) && (Acceptable(a.(name := name)) <==> Acceptable(b))
  {}

  lemma NameIsNoIdentity(o: Outbound, name: string)
    ensures Signature(o.(name := name)) == Signature(o) && (Acceptable(o.(name := name)) <==> Acceptable(o))
  {
    SameIdentityMeans(o, o, name);
  }

  // The settings under which an import is idempotent.
  predicate Idempotent(opts: Options) {
    StrategyOf(opts.provider).ByEquivalence? && TransportField !in KeptFields(opts)
  }

  lemma ImportItemSignature(outbounds: map<string, Outbound>, i: nat, o: Outbound, opts: Options, parse: Parser, pick: Picker)
    requires Picks(pick) && Idempotent(opts)
    requires forall name :: name in outbounds ==> outbounds[name].name == name
    ensures var r, named := ImportItem(outbounds, i, o, opts, parse, pick), Named(Prepared(o, opts, parse));
      && (r.Bad? <==> !Acceptable(named))
      && (r.Good? ==> Signature(r.outbound) == Signature(named))
      && (r.Good? && r.outbound.name in outbounds ==> Signature(outbounds[r.outbound.name]) == Signature(named))
      && (Signature(named) in Signatures(outbounds) && "" !in outbounds ==> r.Bad? || r.outbound.name in outbounds)
  {
    hide FieldOf, KeptFields, Prepared, Named, FreshName, Merge, Signature, SameIdentity, Acceptable, ToLower;
    var named := Named(Prepared(o, opts, parse));
    var names := EquivalentNames(outbounds, Signature(named));
    if Signature(named) in Signatures(outbounds) {
      var name :| name in outbounds && Signature(outbounds[name]) == Signature(named);
      assert name in names;
    }
    FreshNameIsFresh(outbounds.Keys, named.name);
    var existing := Matching(outbounds, named, opts.provider, i, pick);
    if existing != "" {
      assert pick(i, names) in names;
      MergeKeepsIdentity(outbounds[existing], named, KeptFields(opts));
      SameIdentityMeans(Merge(outbounds[existing], named, KeptFields(opts)), named, existing);
    }
    NameIsNoIdentity(named, FreshName(outbounds.Keys, named.name));
  }

  lemma NamesAreKeys(s: State)
    requires Consistent(s)
    ensures forall name :: name in s.outbounds ==> s.outbounds[name].name == name
  {
    forall name | name in s.outbounds
      ensures s.outbounds[name].name == name
    {
      var k :| 0 <= k < |s.cfg.outbounds| && OutboundName(s.cfg.outbounds[k]) == name;
    }
  }

  lemma PutSignatures(outbounds: map<string, Outbound>, o: Outbound)
    requires o.name in outbounds ==> Signature(outbounds[o.name]) == Signature(o)
    ensures Signatures(outbounds[o.name := o]) == Signatures(outbounds) + {Signature(o)}
  {
    hide Signature;
    var after := outbounds[o.name := o];
    forall t
      ensures t in Signatures(after) <==> t in Signatures(outbounds) || t == Signature(o)
    {
      assert o.name in after;
      if t in Signatures(outbounds) {
        var name :| name in outbounds && Signature(outbounds[name]) == t;
        assert name in after && Signature(after[name]) == t;
      }
      if t in Signatures(after) {
        var name :| name in after && Signature(after[name]) == t;
        assert name != o.name ==> name in outbounds;
      }
    }
  }

  // The signatures a batch stands for.
  function BatchSignatures(batch: seq<Outbound>, opts: Options, parse: Parser): set<string> {
    set i | 0 <= i < |batch| :: Signature(Named(Prepared(batch[i], opts, parse)))
  }

  /** An import adds the signatures of its batch and loses none. */
  lemma {:induction false} ImportAddsSignatures(s: State, batch: seq<Outbound>, opts: Options, parse: Parser, pick: Picker)
    requires Consistent(s) && Picks(pick) && Idempotent(opts)
    requires ImportBatch(s, batch, opts, parse, pick).Finished?
    ensures var t := ImportBatch(s, batch, opts, parse, pick).next;
      && Signatures(t.outbounds) == Signatures(s.outbounds) + BatchSignatures(batch, opts, parse)
      && forall i :: 0 <= i < |batch| ==> Acceptable(Named(Prepared(batch[i], opts, parse)))
  {
    hide Signature, Signatures, Named, Prepared, Acceptable, ImportItem, Idempotent, Consistent, AddOutbound;
    if batch != [] {
      hide BatchSignatures;
      var front, n := batch[..|batch| - 1], |batch| - 1;
      ImportAddsSignatures(s, front, opts, parse, pick);
      StoppedImportConsistent(s, front, opts, parse, pick);
      var t := ImportBatch(s, front, opts, parse, pick).next;
      var Good(o, _) := ImportItem(t.outbounds, n, batch[n], opts, parse, pick);
      NamesAreKeys(t);
      ImportItemSignature(t.outbounds, n, batch[n], opts, parse, pick);
      AddOutboundConsistent(t, o);
      PutSignatures(t.outbounds, o);
      BatchSignaturesSnoc(batch, opts, parse);
    } else {
      assert BatchSignatures(batch, opts, parse) == {};
    }
  }

  lemma BatchSignaturesSnoc(batch: seq<Outbound>, opts: Options, parse: Parser)
    requires batch != []
    ensures BatchSignatures(batch, opts, parse) ==
            BatchSignatures(batch[..|batch| - 1], opts, parse) + {Signature(Named(Prepared(batch[|batch| - 1], opts, parse)))}
  {
    hide Signature, Named, Prepared;
    var front, n := batch[..|batch| - 1], |batch| - 1;
    forall t
      ensures t in BatchSignatures(batch, opts, parse) <==>
              t in BatchSignatures(front, opts, parse) || t == Signature(Named(Prepared(batch[n], opts, parse)))
    {
      if t in BatchSignatures(batch, opts, parse) {
        var i :| 0 <= i < |batch| && t == Signature(Named(Prepared(batch[i], opts, parse)));
        assert i < n ==> front[i] == batch[i];
      }
      if t in BatchSignatures(front, opts, parse) {
        var i :| 0 <= i < |front| && t == Signature(Named(Prepared(front[i], opts, parse)));
        assert batch[i] == front[i];
      }
    }
  }

  /** With every signature of the batch already there, an import is accepted and adds nothing. */
  lemma {:induction false} ImportOfKnownAddsNothing(s: State, batch: seq<Outbound>, opts: Options, parse: Parser, pick: Picker)
    requires Consistent(s) && Picks(pick) && Idempotent(opts) && "" !in s.outbounds
    requires BatchSignatures(batch, opts, parse) <= Signatures(s.outbounds)
    requires forall i :: 0 <= i < |batch| ==> Acceptable(Named(Prepared(batch[i], opts, parse)))
    ensures var r := ImportBatch(s, batch, opts, parse, pick);
      && r.Finished? && Count(r.details, Added) == 0
      && Consistent(r.next)
      && r.next.outbounds.Keys == s.outbounds.Keys
      && Signatures(r.next.outbounds) == Signatures(s.outbounds)
      && |r.next.cfg.outbounds| == |s.cfg.outbounds|
  {
    hide Signature, Signatures, BatchSignatures, Named, Prepared, Acceptable, ImportItem, Idempotent, Consistent, AddOutbound;
    if batch != [] {
      var front, n := batch[..|batch| - 1], |batch| - 1;
      BatchSignaturesSnoc(batch, opts, parse);
      ImportOfKnownAddsNothing(s, front, opts, parse, pick);
      var Finished(t, details) := ImportBatch(s, front, opts, parse, pick);
      NamesAreKeys(t);
      ImportItemSignature(t.outbounds, n, batch[n], opts, parse, pick);
      ImportItemFits(t, n, batch[n], opts, parse, pick);
      var Good(o, detail) := ImportItem(t.outbounds, n, batch[n], opts, parse, pick);
      AddOutboundConsistent(t, o);
      PutSignatures(t.outbounds, o);
      assert t.outbounds[o.name := o].Keys == t.outbounds.Keys;
      assert (details + [detail])[..|details|] == details;
    }
  }

  /**
   Importing the same batch again, after a committed import, is accepted, adds nothing and keeps the number of
   outbounds, whichever equivalent nodes the two walks over the map come upon.
   */
  lemma ReimportAddsNothing(s: State, batch: seq<Outbound>, opts: Options, parse: Parser, pick: Picker, again: Picker)
    requires Consistent(s) && Picks(pick) && Picks(again) && Idempotent(opts)
    requires ImportBatch(s, batch, opts, parse, pick).Finished?
    requires ConfigOk(ImportBatch(s, batch, opts, parse, pick).next.cfg)
    ensures var t := ImportBatch(s, batch, opts, parse, pick).next;
      var r := ImportBatch(t, batch, opts, parse, again);
      && r.Finished? && Count(r.details, Added) == 0
      && r.next.outbounds.Keys == t.outbounds.Keys
      && |r.next.cfg.outbounds| == |t.cfg.outbounds|
  {
    hide Acceptable, ImportItem, Idempotent, BatchSignatures, Signatures, Prepared, OutboundOk, InboundOk;
    var t := ImportBatch(s, batch, opts, parse, pick).next;
    ImportAddsSignatures(s, batch, opts, parse, pick);
    StoppedImportConsistent(s, batch, opts, parse, pick);
    assert forall k :: 0 <= k < |t.cfg.outbounds| ==> OutboundName(t.cfg.outbounds[k]) != "";
    ImportOfKnownAddsNothing(t, batch, opts, parse, again);
  }

  /* ----- when an import stops ----- */

  lemma ItemIsBadIff(outbounds: map<string, Outbound>, i: nat, o: Outbound, opts: Options, parse: Parser, pick: Picker)
    requires Picks(pick) && TransportField !in KeptFields(opts)
    ensures ImportItem(outbounds, i, o, opts, parse, pick).Bad? <==> !Acceptable(Named(Prepared(o, opts, parse)))
  {
    hide FieldOf, KeptFields, Prepared, Named, FreshName, Merge, Signature, SameIdentity, Acceptable, Matching, Equivalent;
    var named := Named(Prepared(o, opts, parse));
    var existing := Matching(outbounds, named, opts.provider, i, pick);
    if existing in outbounds {
      MergeKeepsIdentity(outbounds[existing], named, KeptFields(opts));
      SameIdentityMeans(Merge(outbounds[existing], named, KeptFields(opts)), named, existing);
    }
    NameIsNoIdentity(named, existing);
    NameIsNoIdentity(named, FreshName(outbounds.Keys, named.name));
  }

  /** Unless users keep their transport, an import stops exactly when some item is unacceptable as it comes. */
  lemma {:induction false} ImportStopsIff(s: State, batch: seq<Outbound>, opts: Options, parse: Parser, pick: Picker)
    requires Picks(pick) && TransportField !in KeptFields(opts)
    ensures ImportBatch(s, batch, opts, parse, pick).Stopped? <==>
            exists i :: 0 <= i < |batch| && !Acceptable(Named(Prepared(batch[i], opts, parse)))
  {
    hide ImportItem, AddOutbound, KeptFields, Prepared, Named, Acceptable;
    if batch != [] {
      var front, n := batch[..|batch| - 1], |batch| - 1;
      ImportStopsIff(s, front, opts, parse, pick);
      assert forall i :: 0 <= i < n ==> front[i] == batch[i];
      match ImportBatch(s, front, opts, parse, pick) {
        case Stopped(_) =>
        case Finished(t, _) => ItemIsBadIff(t.outbounds, n, batch[n], opts, parse, pick);
      }
    }
  }

  /* ----- what an import leaves ----- */

  function LeftBy(r: BatchResult): State {
    match r case Stopped(left) => left case Finished(next, _) => next
  }

  // A node that validation has nothing against but, perhaps, its name.
  predicate Fits(o: Outbound) {
    ValidPort(o.port) && OutboundOk(o)
  }

  lemma SanitizedIsEmptyIff(name: string)
    ensures SanitizeName(name) == "" <==> TrimSpace(name) == ""
  {}

  // Nothing stands for the item already, and its name is blank.
  predicate Nameless(outbounds: map<string, Outbound>, i: nat, o: Outbound, opts: Options, parse: Parser, pick: Picker)
    requires Picks(pick)
  {
    var named := Named(Prepared(o, opts, parse));
    Matching(outbounds, named, opts.provider, i, pick) == "" && TrimSpace(named.name) == ""
  }

  lemma ItemNamelessIff(outbounds: map<string, Outbound>, i: nat, o: Outbound, opts: Options, parse: Parser, pick: Picker)
    requires Picks(pick) && "" !in outbounds && ImportItem(outbounds, i, o, opts, parse, pick).Good?
    ensures ImportItem(outbounds, i, o, opts, parse, pick).outbound.name == "" <==> Nameless(outbounds, i, o, opts, parse, pick)
    ensures Fits(ImportItem(outbounds, i, o, opts, parse, pick).outbound)
  {
    hide Prepared, Named, Matching, Merge, KeptFields, SanitizeName, Equivalent, OutboundOk, TrimSpace;
    SanitizedIsEmptyIff(Named(Prepared(o, opts, parse)).name);
  }

  lemma {:induction false} UpsertMembers(xs: seq<Outbound>, x: Outbound)
    ensures forall o :: o in Upsert(xs, OutboundName, x) ==> o in xs || o == x
  {}

  // The `k`th item is reached and imported without a name.
  ghost predicate NamelessAt(s: State, batch: seq<Outbound>, k: nat, opts: Options, parse: Parser, pick: Picker)
    requires Picks(pick) && k < |batch|
  {
    var before := ImportBatch(s, batch[..k], opts, parse, pick);
    && before.Finished?
    && ImportItem(before.next.outbounds, k, batch[k], opts, parse, pick).Good?
    && Nameless(before.next.outbounds, k, batch[k], opts, parse, pick)
  }

  ghost predicate SomeNameless(s: State, batch: seq<Outbound>, opts: Options, parse: Parser, pick: Picker)
    requires Picks(pick)
  {
    exists k :: 0 <= k < |batch| && NamelessAt(s, batch, k, opts, parse, pick)
  }

  lemma SomeNamelessSnoc(s: State, batch: seq<Outbound>, opts: Options, parse: Parser, pick: Picker)
    requires Picks(pick) && batch != []
    ensures SomeNameless(s, batch, opts, parse, pick) <==>
            SomeNameless(s, batch[..|batch| - 1], opts, parse, pick) || NamelessAt(s, batch, |batch| - 1, opts, parse, pick)
  {
    hide ImportBatch, ImportItem, Nameless;
    var front := batch[..|batch| - 1];
    forall k | 0 <= k < |front|
      ensures NamelessAt(s, front, k, opts, parse, pick) <==> NamelessAt(s, batch, k, opts, parse, pick)
    {
      assert front[..k] == batch[..k] && front[k] == batch[k];
    }
  }

  // Everything but the outbounds is as before; these all fit, and one is nameless exactly when such an item came.
  lemma {:induction false} LeftByImport(s: State, batch: seq<Outbound>, opts: Options, parse: Parser, pick: Picker)
    requires Consistent(s) && Picks(pick) && "" !in s.outbounds
    requires forall o :: o in s.cfg.outbounds ==> Fits(o)
    ensures var t := LeftBy(ImportBatch(s, batch, opts, parse, pick));
      && Consistent(t) && t.cfg == s.cfg.(outbounds := t.cfg.outbounds)
      && s.outbounds.Keys <= t.outbounds.Keys
      && (forall o :: o in t.cfg.outbounds ==> Fits(o))
      && ("" in t.outbounds <==> SomeNameless(s, batch, opts, parse, pick))
  {
    hide ImportItem, Consistent, Fits, AddOutbound, Nameless, SomeNameless;
    if batch == [] {
      assert !SomeNameless(s, [], opts, parse, pick) by { NoneNameless(s, opts, parse, pick); }
    } else {
      var front, n := batch[..|batch| - 1], |batch| - 1;
      LeftByImport(s, front, opts, parse, pick);
      SomeNamelessSnoc(s, batch, opts, parse, pick);
      match ImportBatch(s, front, opts, parse, pick) {
        case Stopped(_) =>
        case Finished(t, _) =>
          match ImportItem(t.outbounds, n, batch[n], opts, parse, pick) {
            case Bad =>
            case Good(o, _) =>
              AddOutboundConsistent(t, o);
              AddOutboundKeepsRest(t, o);
              ItemFits(t.outbounds, n, batch[n], opts, parse, pick);
              if "" !in t.outbounds {
                ItemNamelessIff(t.outbounds, n, batch[n], opts, parse, pick);
              }
          }
      }
    }
  }

  lemma NoneNameless(s: State, opts: Options, parse: Parser, pick: Picker)
    requires Picks(pick)
    ensures !SomeNameless(s, [], opts, parse, pick)
  {}

  lemma ItemFits(outbounds: map<string, Outbound>, i: nat, o: Outbound, opts: Options, parse: Parser, pick: Picker)
    requires Picks(pick) && ImportItem(outbounds, i, o, opts, parse, pick).Good?
    ensures Fits(ImportItem(outbounds, i, o, opts, parse, pick).outbound)
  {
    hide Prepared, Named, Matching, Merge, KeptFields, FreshName, Equivalent, OutboundOk;
  }

  lemma AddOutboundKeepsRest(s: State, o: Outbound)
    ensures AddOutbound(s, o).cfg == s.cfg.(outbounds := Upsert(s.cfg.outbounds, OutboundName, o))
    ensures forall x :: x in AddOutbound(s, o).cfg.outbounds ==> x in s.cfg.outbounds || x == o
  {
    UpsertMembers(s.cfg.outbounds, o);
  }

  lemma ReachableStays(s: State, t: State, name: string)
    requires Consistent(s) && Consistent(t) && s.outbounds.Keys <= t.outbounds.Keys
    requires Reachable(s.cfg.outbounds, name)
    ensures Reachable(t.cfg.outbounds, name)
  {
    if name != "direct" {
      var i :| 0 <= i < |s.cfg.outbounds| && OutboundName(s.cfg.outbounds[i]) == name;
      assert name in s.outbounds;
    }
  }

  lemma RoutingStays(s: State, t: State)
    requires Consistent(s) && Consistent(t) && s.outbounds.Keys <= t.outbounds.Keys
    requires RoutingOk(s.cfg.routing, s.cfg.inbounds, s.cfg.outbounds)
    ensures RoutingOk(s.cfg.routing, s.cfg.inbounds, t.cfg.outbounds)
  {
    hide Reachable, Names, Consistent, RuleMatchType, RuleValue;
    forall name | Reachable(s.cfg.outbounds, name)
      ensures Reachable(t.cfg.outbounds, name)
    {
      ReachableStays(s, t, name);
    }
  }

  lemma NodesUpToNames(s: State, t: State)
    requires NodesOk(s.cfg.inbounds, s.cfg.outbounds) && Consistent(t)
    requires forall o :: o in t.cfg.outbounds ==> Fits(o)
    ensures NodesOk(s.cfg.inbounds, t.cfg.outbounds) <==> "" !in t.outbounds
  {
    hide InboundOk, OutboundOk;
    NamelessIsKey(t);
    forall i | 0 <= i < |t.cfg.outbounds|
      ensures ValidPort(t.cfg.outbounds[i].port) && OutboundOk(t.cfg.outbounds[i])
    {
      assert t.cfg.outbounds[i] in t.cfg.outbounds;
    }
  }

  lemma ValidUpToNames(s: State, t: State)
    requires ConfigOk(s.cfg) && Consistent(s) && Consistent(t) && s.outbounds.Keys <= t.outbounds.Keys
    requires t.cfg == s.cfg.(outbounds := t.cfg.outbounds) && forall o :: o in t.cfg.outbounds ==> Fits(o)
    ensures ConfigOk(t.cfg) <==> "" !in t.outbounds
  {
    hide NodesOk, RoutingOk, Consistent, Fits;
    RoutingStays(s, t);
    NodesUpToNames(s, t);
  }

  lemma NamelessIsKey(s: State)
    requires Consistent(s)
    ensures "" in s.outbounds <==> exists i :: 0 <= i < |s.cfg.outbounds| && s.cfg.outbounds[i].name == ""
  {
    if "" in s.outbounds {
      var i :| 0 <= i < |s.cfg.outbounds| && OutboundName(s.cfg.outbounds[i]) == "";
      assert s.cfg.outbounds[i].name == "";
    }
    if i :| 0 <= i < |s.cfg.outbounds| && s.cfg.outbounds[i].name == "" {
      assert OutboundName(s.cfg.outbounds[i]) in s.outbounds;
    }
  }

  /**
   Stopped or finished, an import into a valid configuration leaves a valid one exactly when no item that it reaches
   is new and has a blank name.
   */
  lemma ImportLeavesValidIff(s: State, batch: seq<Outbound>, opts: Options, parse: Parser, pick: Picker)
    requires ConfigOk(s.cfg) && Consistent(s) && Picks(pick)
    ensures var t := LeftBy(ImportBatch(s, batch, opts, parse, pick));
      && (ConfigOk(t.cfg) <==> "" !in t.outbounds)
      && (ConfigOk(t.cfg) <==> !SomeNameless(s, batch, opts, parse, pick))
  {
    hide ImportBatch, SomeNameless, Consistent, InboundOk, OutboundOk, RoutingOk, Distinct;
    NamelessIsKey(s);
    LeftByImport(s, batch, opts, parse, pick);
    ValidUpToNames(s, LeftBy(ImportBatch(s, batch, opts, parse, pick)));
  }

  // No item of the batch is blank by the time it is looked up.
  predicate AllNamed(batch: seq<Outbound>, opts: Options, parse: Parser) {
    forall i :: 0 <= i < |batch| ==> TrimSpace(Named(Prepared(batch[i], opts, parse)).name) != ""
  }

  /** Whatever is wrong with its other fields, a batch of named items leaves a valid configuration. */
  lemma NamedImportLeavesValid(s: State, batch: seq<Outbound>, opts: Options, parse: Parser, pick: Picker)
    requires ConfigOk(s.cfg) && Consistent(s) && Picks(pick) && AllNamed(batch, opts, parse)
    ensures ConfigOk(LeftBy(ImportBatch(s, batch, opts, parse, pick)).cfg)
  {
    hide ConfigOk, Consistent, ImportBatch, ImportItem, Named, Prepared, TrimSpace, Matching;
    ImportLeavesValidIff(s, batch, opts, parse, pick);
  }
}
