/**
 What an import means for the nodes: what is completed from a link, what tells two nodes apart, and which of the
 user's own settings survive.
 */
module ImportLaws {
  import opened Text
  import opened Config
  import opened Sorting
  import opened Routing
  import opened Store
  import opened Import

  /* ----- completion from the link ----- */

  // A node without anything that its link would say again.
  function Stripped(o: Outbound): Outbound {
    o.(flow := "", security := "", serverName := "", publicKey := "", shortID := "", fingerprint := "",
       transport := "", path := "", host := "", alpn := "", tls := false, skipCertVerify := false)
  }

  /** Completing a node from its link gives back all that was dropped, and adds nothing to a node that is complete. */
  lemma EnrichRestores(o: Outbound, parse: Parser)
    requires Contains(o.raw, "://") && parse(o.raw) == Some(o)
    ensures Enrich(Stripped(o), parse) == o && Enrich(o, parse) == o
  {
    hide Contains;
  }

  /** A setting of the node's own is never replaced by that of its link. */
  lemma EnrichKeepsOwn(o: Outbound, parse: Parser)
    ensures var r := Enrich(o, parse);
      && (o.flow != "" ==> r.flow == o.flow) && (o.security != "" ==> r.security == o.security)
      && (o.serverName != "" ==> r.serverName == o.serverName) && (o.publicKey != "" ==> r.publicKey == o.publicKey)
      && (o.shortID != "" ==> r.shortID == o.shortID) && (o.fingerprint != "" ==> r.fingerprint == o.fingerprint)
      && (o.transport != "" ==> r.transport == o.transport) && (o.path != "" ==> r.path == o.path)
      && (o.host != "" ==> r.host == o.host) && (o.alpn != "" ==> r.alpn == o.alpn)
      && (o.tls ==> r.tls) && (o.skipCertVerify ==> r.skipCertVerify)
    ensures !Contains(o.raw, "://") ==> Enrich(o, parse) == o
  {
    hide Contains;
  }

  /* ----- telling nodes apart ----- */

  predicate NoBar(s: string) { '|' !in s }

  // None of the fields that identify a node has a bar in it.
  predicate NoBars(o: Outbound) {
    && NoBar(ProtocolText(o.protocol)) && NoBar(o.address) && NoBar(o.username) && NoBar(o.uuid) && NoBar(o.password)
    && NoBar(o.cipher) && NoBar(o.publicKey) && NoBar(o.shortID) && NoBar(o.transport)
  }

  predicate SameNode(a: Outbound, b: Outbound) {
    && ProtocolText(a.protocol) == ProtocolText(b.protocol) && a.address == b.address && a.port == b.port
    && a.username == b.username && a.uuid == b.uuid && a.password == b.password && a.cipher == b.cipher
    && a.publicKey == b.publicKey && a.shortID == b.shortID && a.transport == b.transport
  }

  lemma ItoaFacts(m: int, n: int)
    ensures NoBar(Itoa(m)) && (Itoa(m) == Itoa(n) ==> m == n)
  {
    DecimalValue(if m < 0 then -m else m);
    DecimalValue(if n < 0 then -n else n);
    assert Decimal(if m < 0 then -m else m)[0] in Decimal(if m < 0 then -m else m);
    assert Decimal(if n < 0 then -n else n)[0] in Decimal(if n < 0 then -n else n);
    if m < 0 && n < 0 && Itoa(m) == Itoa(n) {
      assert Itoa(m)[1..] == Decimal(-m) && Itoa(n)[1..] == Decimal(-n);
    }
  }

  // The identifying fields in the order of the signature.
  function FieldText(o: Outbound, k: nat): string {
    if k == 0 then ProtocolText(o.protocol)
    else if k == 1 then o.address
    else if k == 2 then Itoa(o.port)
    else if k == 3 then o.username
    else if k == 4 then o.uuid
    else if k == 5 then o.password
    else if k == 6 then o.cipher
    else if k == 7 then o.publicKey
    else if k == 8 then o.shortID
    else o.transport
  }

  function Front(o: Outbound, k: nat): string {
    if k == 0 then FieldText(o, 0) else Front(o, k - 1) + "|" + FieldText(o, k)
  }

  function Tail(o: Outbound, k: nat): string
    requires k <= 9
    decreases 9 - k
  {
    if k == 9 then FieldText(o, 9) else FieldText(o, k) + ['|'] + Tail(o, k + 1)
  }

  lemma {:induction false} FrontTail(o: Outbound, k: nat)
    requires k < 9
    ensures Front(o, k) + "|" + Tail(o, k + 1) == Tail(o, 0)
  {
    hide FieldText;
    if k > 0 {
      FrontTail(o, k - 1);
      assert Front(o, k) + "|" + Tail(o, k + 1) == Front(o, k - 1) + "|" + (FieldText(o, k) + ['|'] + Tail(o, k + 1));
    }
  }

  lemma SignatureIsFront(o: Outbound)
    ensures Signature(o) == Front(o, 9)
  {
    hide ProtocolText, Itoa;
    var p := ProtocolText(o.protocol);
    assert Front(o, 0) == p && Front(o, 1) == p + "|" + o.address;
    assert Front(o, 2) == p + "|" + o.address + "|" + Itoa(o.port);
    assert Front(o, 4) == Front(o, 2) + "|" + o.username + "|" + o.uuid;
    assert Front(o, 6) == Front(o, 4) + "|" + o.password + "|" + o.cipher;
    assert Front(o, 8) == Front(o, 6) + "|" + o.publicKey + "|" + o.shortID;
    assert Front(o, 9) == Front(o, 8) + "|" + o.transport;
  }

  lemma {:induction false} TailsEqual(a: Outbound, b: Outbound, k: nat)
    requires k <= 9 && Tail(a, k) == Tail(b, k)
    requires forall j :: 0 <= j < 9 ==> NoBar(FieldText(a, j)) && NoBar(FieldText(b, j))
    ensures forall j :: k <= j <= 9 ==> FieldText(a, j) == FieldText(b, j)
    decreases 9 - k
  {
    hide FieldText;
    if k < 9 {
      CutAt(FieldText(a, k), '|', Tail(a, k + 1));
      CutAt(FieldText(b, k), '|', Tail(b, k + 1));
      TailsEqual(a, b, k + 1);
    }
  }

  lemma {:induction false} EqualTails(a: Outbound, b: Outbound, k: nat)
    requires k <= 9 && forall j :: k <= j <= 9 ==> FieldText(a, j) == FieldText(b, j)
    ensures Tail(a, k) == Tail(b, k)
    decreases 9 - k
  {
    hide FieldText;
    if k < 9 {
      EqualTails(a, b, k + 1);
    }
  }

  lemma SignatureIsTail(o: Outbound)
    ensures Signature(o) == Tail(o, 0)
  {
    hide Signature, FieldText;
    SignatureIsFront(o);
    FrontTail(o, 8);
  }

  lemma SameNodeFields(a: Outbound, b: Outbound)
    ensures SameNode(a, b) <==> forall j :: 0 <= j <= 9 ==> FieldText(a, j) == FieldText(b, j)
  {
    hide ProtocolText, Itoa;
    ItoaFacts(a.port, b.port);
    if forall j :: 0 <= j <= 9 ==> FieldText(a, j) == FieldText(b, j) {
      assert FieldText(a, 0) == FieldText(b, 0) && FieldText(a, 1) == FieldText(b, 1) && FieldText(a, 2) == FieldText(b, 2);
      assert FieldText(a, 3) == FieldText(b, 3) && FieldText(a, 4) == FieldText(b, 4) && FieldText(a, 5) == FieldText(b, 5);
      assert FieldText(a, 6) == FieldText(b, 6) && FieldText(a, 7) == FieldText(b, 7) && FieldText(a, 8) == FieldText(b, 8);
      assert FieldText(a, 9) == FieldText(b, 9);
    }
  }

  lemma NoBarFields(o: Outbound)
    requires NoBars(o)
    ensures forall j :: 0 <= j < 9 ==> NoBar(FieldText(o, j))
  {
    hide ProtocolText, Itoa, NoBar;
    ItoaFacts(o.port, o.port);
  }

  /** Two nodes without a bar in their fields have one signature exactly when they agree in every identifying field. */
  lemma SignatureSeparatesIff(a: Outbound, b: Outbound)
    requires NoBars(a) && NoBars(b)
    ensures Signature(a) == Signature(b) <==> SameNode(a, b)
  {
    hide Signature, Tail, FieldText, NoBars, NoBar, SameNode;
    SignatureIsTail(a);
    SignatureIsTail(b);
    NoBarFields(a);
    NoBarFields(b);
    SameNodeFields(a, b);
    if Tail(a, 0) == Tail(b, 0) {
      TailsEqual(a, b, 0);
    }
    if forall j :: 0 <= j <= 9 ==> FieldText(a, j) == FieldText(b, j) {
      EqualTails(a, b, 0);
    }
  }

  /** With bars two different nodes may share a signature: a password may begin with what another's uuid is. */
  lemma BarsCollide(o: Outbound)
    ensures var a, b := o.(uuid := "", password := "|y"), o.(uuid := "|", password := "y");
      Signature(a) == Signature(b) && !SameNode(a, b)
  {
    hide FieldText, Signature;
    var a, b := o.(uuid := "", password := "|y"), o.(uuid := "|", password := "y");
    SignatureIsFront(a);
    SignatureIsFront(b);
    SameFields(a, b);
    assert Front(a, 5) == Front(b, 5) by {
      var front := Front(a, 3);
      assert Front(a, 5) == front + "|" + "" + "|" + "|y" == front + "|||y" by { UuidAndPassword(a); }
      assert Front(b, 5) == front + "|" + "|" + "|" + "y" == front + "|||y" by { UuidAndPassword(b); }
    }
    assert Front(a, 7) == Front(b, 7) && Front(a, 9) == Front(b, 9);
  }

  lemma SameFields(a: Outbound, b: Outbound)
    requires b == a.(uuid := b.uuid, password := b.password)
    ensures forall k: nat :: k != 4 && k != 5 ==> FieldText(a, k) == FieldText(b, k)
    ensures Front(a, 3) == Front(b, 3)
  {
    assert Front(a, 1) == Front(b, 1);
  }

  lemma UuidAndPassword(o: Outbound)
    ensures Front(o, 5) == Front(o, 3) + "|" + o.uuid + "|" + o.password
  {}

  /* ----- which settings survive ----- */

  // The field of `r` is that of `source`.
  predicate FieldFrom(r: Outbound, source: Outbound, field: Field) {
    match field
    case NameField => r.name == source.name
    case DisabledField => r.disabled == source.disabled
    case ServerNameField => r.serverName == source.serverName
    case SkipCertField => r.skipCertVerify == source.skipCertVerify
    case FingerprintField => r.fingerprint == source.fingerprint
    case AlpnField => r.alpn == source.alpn
    case FlowField => r.flow == source.flow
    case TransportField => r.transport == source.transport && r.network == source.network
    case PathField => r.path == source.path
    case HostField => r.host == source.host
    case GroupField => r.group == source.group
    case UnknownField => true
  }

  lemma KeepFieldTakes(existing: Outbound, incoming: Outbound, kept: Field, field: Field)
    ensures FieldFrom(KeepField(existing, incoming, kept), if field == kept then existing else incoming, field)
  {}

  lemma FieldFromTwice(a: Outbound, b: Outbound, c: Outbound, field: Field)
    requires FieldFrom(a, b, field) && FieldFrom(b, c, field)
    ensures FieldFrom(a, c, field)
  {}

  lemma FieldFromSame(a: Outbound, field: Field)
    ensures FieldFrom(a, a, field)
  {}

  /** A merge takes exactly the listed fields from the existing node, in whatever order and however often listed. */
  lemma {:induction false} MergeTakesListed(existing: Outbound, incoming: Outbound, fields: seq<Field>, field: Field)
    ensures FieldFrom(Merge(existing, incoming, fields), if field in fields then existing else incoming, field)
  {
    hide KeepField, FieldFrom;
    if fields == [] {
      FieldFromSame(incoming, field);
    } else {
      var front, last := fields[..|fields| - 1], fields[|fields| - 1];
      MergeTakesListed(existing, incoming, front, field);
      var merged := Merge(existing, incoming, front);
      KeepFieldTakes(existing, merged, last, field);
      assert fields == front + [last];
      if field != last {
        FieldFromTwice(Merge(existing, incoming, fields), merged, if field in front then existing else incoming, field);
      }
    }
  }

  // The provider's options ask for fields of the user's to be kept: by default, or under one of these spellings.
  predicate Keeps(opts: Options, byDefault: bool, spellings: set<string>) {
    && opts.fromSubscription
    && if opts.provider.preserveFields == [] then opts.provider.preserveUserFields && byDefault
       else exists i :: 0 <= i < |opts.provider.preserveFields| && ToLower(TrimSpace(opts.provider.preserveFields[i])) in spellings
  }

  lemma ListedIff(opts: Options, field: Field, spellings: set<string>)
    requires opts.provider.preserveFields != []
    requires forall text: string :: FieldOf(text) == field <==> ToLower(TrimSpace(text)) in spellings
    ensures field in KeptFields(opts) <==> Keeps(opts, true, spellings)
    ensures field in KeptFields(opts) <==> Keeps(opts, false, spellings)
  {
    hide FieldOf, ToLower, TrimSpace;
    var texts := opts.provider.preserveFields;
    if opts.fromSubscription {
      var kept := Map(FieldOf, texts);
      if Keeps(opts, true, spellings) {
        var i :| 0 <= i < |texts| && ToLower(TrimSpace(texts[i])) in spellings;
        assert kept[i] == field;
      }
      if field in kept {
        var i :| 0 <= i < |kept| && kept[i] == field;
        assert FieldOf(texts[i]) == field;
      }
    }
  }

  lemma SpelledDefaults(text: string)
    ensures FieldOf(text) == DisabledField <==> ToLower(TrimSpace(text)) in {"disabled", "enabled"}
    ensures FieldOf(text) == ServerNameField <==> ToLower(TrimSpace(text)) in {"server_name", "sni"}
    ensures FieldOf(text) == SkipCertField <==> ToLower(TrimSpace(text)) in {"skip_cert_verify", "insecure"}
    ensures FieldOf(text) == FingerprintField <==> ToLower(TrimSpace(text)) in {"fingerprint", "fp"}
    ensures FieldOf(text) == AlpnField <==> ToLower(TrimSpace(text)) in {"alpn"}
    ensures FieldOf(text) == GroupField <==> ToLower(TrimSpace(text)) in {"group"}
  {
    hide ToLower, TrimSpace;
  }

  lemma SpelledOthers(text: string)
    ensures FieldOf(text) == FlowField <==> ToLower(TrimSpace(text)) in {"flow"}
    ensures FieldOf(text) == TransportField <==> ToLower(TrimSpace(text)) in {"transport", "network"}
    ensures FieldOf(text) == PathField <==> ToLower(TrimSpace(text)) in {"path"}
    ensures FieldOf(text) == HostField <==> ToLower(TrimSpace(text)) in {"host"}
  {
    hide ToLower, TrimSpace;
  }

  /**
   Which settings are kept: without a list, those of the default, when user fields are to be preserved; with one, those
   that it spells.
   */
  lemma KeptFieldsIff(opts: Options)
    ensures DisabledField in KeptFields(opts) <==> Keeps(opts, true, {"disabled", "enabled"})
    ensures ServerNameField in KeptFields(opts) <==> Keeps(opts, true, {"server_name", "sni"})
    ensures SkipCertField in KeptFields(opts) <==> Keeps(opts, true, {"skip_cert_verify", "insecure"})
    ensures FingerprintField in KeptFields(opts) <==> Keeps(opts, true, {"fingerprint", "fp"})
    ensures AlpnField in KeptFields(opts) <==> Keeps(opts, true, {"alpn"})
    ensures GroupField in KeptFields(opts) <==> Keeps(opts, true, {"group"})
    ensures FlowField in KeptFields(opts) <==> Keeps(opts, false, {"flow"})
    ensures TransportField in KeptFields(opts) <==> Keeps(opts, false, {"transport", "network"})
    ensures PathField in KeptFields(opts) <==> Keeps(opts, false, {"path"})
    ensures HostField in KeptFields(opts) <==> Keeps(opts, false, {"host"})
  {
    if opts.provider.preserveFields != [] {
      hide KeptFields, Keeps;
      ListedAll(opts);
    }
  }

  lemma ListedAll(opts: Options)
    requires opts.provider.preserveFields != []
    ensures DisabledField in KeptFields(opts) <==> Keeps(opts, true, {"disabled", "enabled"})
    ensures ServerNameField in KeptFields(opts) <==> Keeps(opts, true, {"server_name", "sni"})
    ensures SkipCertField in KeptFields(opts) <==> Keeps(opts, true, {"skip_cert_verify", "insecure"})
    ensures FingerprintField in KeptFields(opts) <==> Keeps(opts, true, {"fingerprint", "fp"})
    ensures AlpnField in KeptFields(opts) <==> Keeps(opts, true, {"alpn"})
    ensures GroupField in KeptFields(opts) <==> Keeps(opts, true, {"group"})
    ensures FlowField in KeptFields(opts) <==> Keeps(opts, false, {"flow"})
    ensures TransportField in KeptFields(opts) <==> Keeps(opts, false, {"transport", "network"})
    ensures PathField in KeptFields(opts) <==> Keeps(opts, false, {"path"})
    ensures HostField in KeptFields(opts) <==> Keeps(opts, false, {"host"})
  {
    hide FieldOf, KeptFields, Keeps, ToLower, TrimSpace;
    forall text: string
      ensures FieldOf(text) == DisabledField <==> ToLower(TrimSpace(text)) in {"disabled", "enabled"}
      ensures FieldOf(text) == ServerNameField <==> ToLower(TrimSpace(text)) in {"server_name", "sni"}
      ensures FieldOf(text) == SkipCertField <==> ToLower(TrimSpace(text)) in {"skip_cert_verify", "insecure"}
      ensures FieldOf(text) == FingerprintField <==> ToLower(TrimSpace(text)) in {"fingerprint", "fp"}
      ensures FieldOf(text) == AlpnField <==> ToLower(TrimSpace(text)) in {"alpn"}
      ensures FieldOf(text) == GroupField <==> ToLower(TrimSpace(text)) in {"group"}
    {
      SpelledDefaults(text);
    }
    forall text: string
      ensures FieldOf(text) == FlowField <==> ToLower(TrimSpace(text)) in {"flow"}
      ensures FieldOf(text) == TransportField <==> ToLower(TrimSpace(text)) in {"transport", "network"}
      ensures FieldOf(text) == PathField <==> ToLower(TrimSpace(text)) in {"path"}
      ensures FieldOf(text) == HostField <==> ToLower(TrimSpace(text)) in {"host"}
    {
      SpelledOthers(text);
    }
    ListedIff(opts, DisabledField, {"disabled", "enabled"});
    ListedIff(opts, ServerNameField, {"server_name", "sni"});
    ListedIff(opts, SkipCertField, {"skip_cert_verify", "insecure"});
    ListedIff(opts, FingerprintField, {"fingerprint", "fp"});
    ListedIff(opts, AlpnField, {"alpn"});
    ListedIff(opts, GroupField, {"group"});
    ListedIff(opts, FlowField, {"flow"});
    ListedIff(opts, TransportField, {"transport", "network"});
    ListedIff(opts, PathField, {"path"});
    ListedIff(opts, HostField, {"host"});
  }

  /* ----- one item ----- */

  // The existing node that an item is matched with, under a name in use.
  predicate MatchedWith(outbounds: map<string, Outbound>, i: nat, o: Outbound, opts: Options, parse: Parser, pick: Picker, name: string)
    requires Picks(pick)
  {
    name != "" && name in outbounds && Matching(outbounds, Named(Prepared(o, opts, parse)), opts.provider, i, pick) == name
  }

  /**
   An item that is matched keeps the name of the existing node, takes every kept field from it and every other field
   from what came in; an item that is called unchanged agrees with the existing node in all that is compared.
   */
  lemma MatchedItem(outbounds: map<string, Outbound>, i: nat, o: Outbound, opts: Options, parse: Parser, pick: Picker, name: string, field: Field)
    requires Picks(pick) && MatchedWith(outbounds, i, o, opts, parse, pick, name)
    requires ImportItem(outbounds, i, o, opts, parse, pick).Good? && field != NameField
    ensures var r, incoming := ImportItem(outbounds, i, o, opts, parse, pick), Named(Prepared(o, opts, parse));
      && r.outbound.name == name
      && FieldFrom(r.outbound, if field in KeptFields(opts) then outbounds[name] else incoming, field)
      && r.outbound.subscription == incoming.subscription && r.outbound.raw == incoming.raw && r.outbound.tls == incoming.tls
      && r.detail.action != Added
      && r.detail.originalName == Prepared(o, opts, parse).name && (r.detail.preservedName <==> name != r.detail.originalName)
      && (r.detail.action == Same <==>
            && Signature(outbounds[name]) == Signature(incoming)
            && outbounds[name].flow == incoming.flow && outbounds[name].fingerprint == incoming.fingerprint
            && outbounds[name].alpn == incoming.alpn && outbounds[name].path == incoming.path
            && outbounds[name].host == incoming.host && outbounds[name].skipCertVerify == incoming.skipCertVerify)
  {
    hide Prepared, Named, Matching, KeptFields, Merge, Acceptable, Signature, FieldFrom, FreshName;
    var incoming := Named(Prepared(o, opts, parse));
    var merged := Merge(outbounds[name], incoming, KeptFields(opts));
    MergeTakesListed(outbounds[name], incoming, KeptFields(opts), field);
    MergeLeavesRest(outbounds[name], incoming, KeptFields(opts));
    NameIsNoField(merged, if field in KeptFields(opts) then outbounds[name] else incoming, name, field);
  }

  lemma NameIsNoField(r: Outbound, source: Outbound, name: string, field: Field)
    requires FieldFrom(r, source, field) && field != NameField
    ensures FieldFrom(r.(name := name), source, field)
  {}

  lemma {:induction false} MergeLeavesRest(existing: Outbound, incoming: Outbound, fields: seq<Field>)
    ensures var r := Merge(existing, incoming, fields);
      && r.subscription == incoming.subscription && r.raw == incoming.raw && r.tls == incoming.tls && r.security == incoming.security
  {
    hide KeepField;
    if fields != [] {
      MergeLeavesRest(existing, incoming, fields[..|fields| - 1]);
      KeepFieldLeavesRest(existing, Merge(existing, incoming, fields[..|fields| - 1]), fields[|fields| - 1]);
    }
  }

  lemma KeepFieldLeavesRest(existing: Outbound, incoming: Outbound, field: Field)
    ensures var r := KeepField(existing, incoming, field);
      && r.subscription == incoming.subscription && r.raw == incoming.raw && r.tls == incoming.tls && r.security == incoming.security
  {}

  /**
   What comes in from a subscription bears its name, its group, and its prefix and suffix around the node's name; a
   nameless node is then called by its protocol and address.
   */
  lemma IncomingFromSubscription(o: Outbound, opts: Options, parse: Parser)
    ensures var r := Prepared(o, opts, parse);
      if !opts.fromSubscription then r == Enrich(o, parse)
      else
        && r.subscription == opts.provider.name
        && (opts.provider.group != "" ==> r.group == opts.provider.group)
        && (opts.provider.group == "" && o.group != "" ==> r.group == o.group)
        && (opts.provider.group == "" && o.group == "" ==> r.group == opts.provider.name)
        && (o.name == "" ==> r.name == "")
        && (o.name != "" ==>
              && opts.provider.renamePrefix <= r.name && r.name[|opts.provider.renamePrefix|..] == o.name + opts.provider.renameSuffix)
        && r.(subscription := o.subscription, group := o.group, name := o.name) == Enrich(o, parse)
    ensures o.name != "" ==> Named(o) == o
    ensures o.name == "" ==> Named(o).name == ProtocolText(o.protocol) + "-" + o.address && Named(o).(name := "") == o
  {
    hide Contains;
  }

  /** Which items are matched: none, those of a name in use, or those with the signature of some node. */
  lemma MatchedIff(s: State, i: nat, o: Outbound, opts: Options, parse: Parser, pick: Picker)
    requires Consistent(s) && Picks(pick) && "" !in s.outbounds
    ensures var incoming := Named(Prepared(o, opts, parse));
      var strategy := ToLower(opts.provider.dedupStrategy);
      (exists name :: MatchedWith(s.outbounds, i, o, opts, parse, pick, name)) <==>
      if strategy == "none" then false
      else if strategy == "name" then incoming.name in s.outbounds
      else Signature(incoming) in Signatures(s.outbounds)
  {
    hide Prepared, Named, Signature, Consistent, ToLower;
    NamesAreKeys(s);
    var incoming := Named(Prepared(o, opts, parse));
    var name := Matching(s.outbounds, incoming, opts.provider, i, pick);
    var names := EquivalentNames(s.outbounds, Signature(incoming));
    if Signature(incoming) in Signatures(s.outbounds) {
      var n :| n in s.outbounds && Signature(s.outbounds[n]) == Signature(incoming);
      assert n in names;
    }
    if StrategyOf(opts.provider).ByEquivalence? && names != {} {
      assert pick(i, names) in names;
    }
    if name != "" {
      MatchIsInUse(s, i, o, opts, parse, pick);
      assert MatchedWith(s.outbounds, i, o, opts, parse, pick, name);
    }
  }

  lemma MatchIsInUse(s: State, i: nat, o: Outbound, opts: Options, parse: Parser, pick: Picker)
    requires Consistent(s) && Picks(pick)
    ensures var incoming := Named(Prepared(o, opts, parse));
      var name := Matching(s.outbounds, incoming, opts.provider, i, pick);
      name == "" || (MatchedWith(s.outbounds, i, o, opts, parse, pick, name)
                     && (ToLower(opts.provider.dedupStrategy) == "name" ==> name == incoming.name)
                     && (ToLower(opts.provider.dedupStrategy) !in {"name", "none"} ==> Signature(s.outbounds[name]) == Signature(incoming)))
  {
    hide Prepared, Named, Signature, Consistent, ToLower;
    NamesAreKeys(s);
    var names := EquivalentNames(s.outbounds, Signature(Named(Prepared(o, opts, parse))));
    if StrategyOf(opts.provider).ByEquivalence? && names != {} {
      assert pick(i, names) in names;
    }
  }

  /** An item that is not matched is added under a name not in use, otherwise as it came in. */
  lemma UnmatchedItem(outbounds: map<string, Outbound>, i: nat, o: Outbound, opts: Options, parse: Parser, pick: Picker)
    requires Picks(pick) && ImportItem(outbounds, i, o, opts, parse, pick).Good?
    requires Matching(outbounds, Named(Prepared(o, opts, parse)), opts.provider, i, pick) == ""
    ensures var r, incoming := ImportItem(outbounds, i, o, opts, parse, pick), Named(Prepared(o, opts, parse));
      && r.detail.action == Added && !r.detail.preservedName && r.outbound.name !in outbounds
      && r.outbound.(name := incoming.name) == incoming
      && (SanitizeName(incoming.name) !in outbounds ==> r.outbound.name == SanitizeName(incoming.name))
  {
    hide Prepared, Named, Matching, Merge, Acceptable, SanitizeName;
    FreshNameIsFresh(outbounds.Keys, Named(Prepared(o, opts, parse)).name);
  }

  /* ----- a whole batch ----- */

  lemma ItemKeepsField(s: State, i: nat, o: Outbound, opts: Options, parse: Parser, pick: Picker, name: string, field: Field)
    requires Consistent(s) && Picks(pick) && name in s.outbounds
    requires field in KeptFields(opts) && field != NameField
    requires ImportItem(s.outbounds, i, o, opts, parse, pick).Good?
    ensures var r := ImportItem(s.outbounds, i, o, opts, parse, pick);
      r.outbound.name == name ==> FieldFrom(r.outbound, s.outbounds[name], field)
  {
    hide ImportItem, Matching, Prepared, Named, KeptFields, Consistent, FieldFrom, Signatures;
    MatchIsInUse(s, i, o, opts, parse, pick);
    var matched := Matching(s.outbounds, Named(Prepared(o, opts, parse)), opts.provider, i, pick);
    if matched == "" {
      UnmatchedItem(s.outbounds, i, o, opts, parse, pick);
    } else {
      MatchedItem(s.outbounds, i, o, opts, parse, pick, matched, field);
    }
  }

  /**
   A kept field of a node that is there survives the whole batch, stopped or finished, whichever items are matched with
   the node: above all, a node that the user has disabled stays disabled.
   */
  lemma {:induction false} ImportKeepsFields(s: State, batch: seq<Outbound>, opts: Options, parse: Parser, pick: Picker, name: string, field: Field)
    requires Consistent(s) && Picks(pick) && name in s.outbounds
    requires field in KeptFields(opts) && field != NameField
    ensures var t := LeftBy(ImportBatch(s, batch, opts, parse, pick));
      name in t.outbounds && FieldFrom(t.outbounds[name], s.outbounds[name], field)
  {
    hide ImportItem, KeptFields, Consistent, FieldFrom, AddOutbound;
    if batch == [] {
      FieldFromSame(s.outbounds[name], field);
    } else {
      var front, n := batch[..|batch| - 1], |batch| - 1;
      ImportKeepsFields(s, front, opts, parse, pick, name, field);
      StoppedImportConsistent(s, front, opts, parse, pick);
      match ImportBatch(s, front, opts, parse, pick) {
        case Stopped(_) =>
        case Finished(t, _) =>
          match ImportItem(t.outbounds, n, batch[n], opts, parse, pick) {
            case Bad =>
            case Good(o, _) =>
              AddOutboundConsistent(t, o);
              ItemKeepsField(t, n, batch[n], opts, parse, pick, name, field);
              if o.name == name {
                FieldFromTwice(o, t.outbounds[name], s.outbounds[name], field);
              }
          }
      }
    }
  }

  /**
   The user's disabled nodes stay disabled, and the enabled ones enabled, through every import whose options keep that
   setting: by default when user fields are preserved, or when "disabled" or "enabled" is listed.
   */
  lemma ImportKeepsDisabled(s: State, batch: seq<Outbound>, opts: Options, parse: Parser, pick: Picker, name: string)
    requires Consistent(s) && Picks(pick) && name in s.outbounds && Keeps(opts, true, {"disabled", "enabled"})
    ensures var t := LeftBy(ImportBatch(s, batch, opts, parse, pick));
      name in t.outbounds && t.outbounds[name].disabled == s.outbounds[name].disabled
  {
    hide ImportBatch, Keeps, KeptFields, Consistent;
    KeptFieldsIff(opts);
    ImportKeepsFields(s, batch, opts, parse, pick, name, DisabledField);
  }
}
