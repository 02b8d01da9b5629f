/** Deployment-managed lane profiles: how a bootstrap document is normalised
    (internal/bootstrap/config.go:81-258), and what the API server makes of a spec
    (api/v1alpha1/laneprofile_types.go:59-222). */
module BootstrapConfig {
  import opened Options
  import opened Text

  datatype Budget = Budget(maxInputTokens: int, compactAtPercent: int, outputReservation: int)

  datatype Context = Context(compactAtPercent: int, outputReservation: int, roles: map<string, Budget>)

  datatype Repair = Repair(mechanicalChecks: seq<string>, maxAttempts: int, window: int)

  /** The runtime image, the model of each role, and the capacity group. */
  datatype Naming = Naming(image: string, roles: map<string, string>, capacityGroup: string)

  /** `rest` stands for framing and resources, which the parser hands on as they are. */
  datatype Spec = Spec(
    concurrency: int, naming: Naming, transport: string, context: Option<Context>, ciRepair: Option<Repair>, skills: seq<string>, rest: string)

  datatype Profile = Profile(name: string, spec: Spec)

  // ---- the API server ----

  /** A zero field is not sent, concurrency excepted, and a field that is not sent
      takes its default. */
  function Defaulted(spec: Spec): Spec {
    spec.(
      context := (match spec.context
                  case None => None
                  case Some(c) => Some(if c.compactAtPercent == 0 then c.(compactAtPercent := 75) else c)),
      ciRepair := (match spec.ciRepair
                   case None => None
                   case Some(r) => Some(if r.window == 0 then r.(window := 1800) else r)))
  }

  predicate IsAlphanumeric(c: char) {
    'a' <= c <= 'z' || '0' <= c <= '9'
  }

  predicate IsLabel(s: string) {
    && 0 < |s| <= 63 && IsAlphanumeric(s[0]) && IsAlphanumeric(s[|s| - 1])
    && forall i | 0 <= i < |s| :: IsAlphanumeric(s[i]) || s[i] == '-'
  }

  predicate InPercent(p: int) {
    1 <= p <= 99
  }

  predicate ValidBudget(b: Budget) {
    b.maxInputTokens >= 0 && (b.compactAtPercent == 0 || InPercent(b.compactAtPercent)) && b.outputReservation >= 0
  }

  predicate ValidContext(c: Context) {
    InPercent(c.compactAtPercent) && c.outputReservation >= 0 && forall role | role in c.roles :: ValidBudget(c.roles[role])
  }

  predicate ValidRepair(r: Repair) {
    0 <= r.maxAttempts <= 5 && 60 <= r.window <= 21600
  }

  predicate AdmitsContext(context: Option<Context>) {
    context.Some? ==> ValidContext(context.value)
  }

  predicate AdmitsRepair(repair: Option<Repair>) {
    repair.Some? ==> ValidRepair(repair.value)
  }

  predicate AdmitsSkills(skills: seq<string>) {
    |skills| <= 16 && forall i | 0 <= i < |skills| :: IsLabel(skills[i])
  }

  /** An empty transport is not sent; any other has to be one of the enumeration. */
  predicate AdmitsTransport(transport: string) {
    transport == "" || transport == "openai" || transport == "anthropic"
  }

  /** The schema counts characters. */
  predicate AdmitsNaming(n: Naming) {
    |n.capacityGroup| <= 253
  }

  predicate SchemaAdmits(spec: Spec) {
    && spec.concurrency >= 1 && AdmitsNaming(spec.naming) && AdmitsTransport(spec.transport)
    && AdmitsContext(spec.context) && AdmitsRepair(spec.ciRepair) && AdmitsSkills(spec.skills)
  }

  /** What the server stores of a written spec; None when it rejects the write. */
  function Stored(spec: Spec): Option<Spec> {
    if SchemaAdmits(Defaulted(spec)) then Some(Defaulted(spec)) else None
  }

  // ---- parsing ----

  /** The entry is refused: an empty name after trimming, or a value that is not accepted. */
  predicate IsRefused<V>(trim: string -> string, accept: V -> Option<V>, m: map<string, V>, k: string)
    requires k in m
  {
    trim(k) == "" || accept(m[k]).None?
  }

  /** Two entries are one after trimming. */
  predicate AreSame<V>(trim: string -> string, m: map<string, V>, j: string, k: string) {
    j in m && k in m && j != k && trim(j) == trim(k)
  }

  /** A map with its names trimmed and its values accepted; None when an entry is
      refused or two names are one after trimming. */
  function Entries<V>(trim: string -> string, accept: V -> Option<V>, m: map<string, V>): Option<map<string, V>> {
    if exists k | k in m :: IsRefused(trim, accept, m, k) then None
    else if exists j, k | j in m && k in m :: AreSame(trim, m, j, k) then None
    else
      assert forall j, k | j in m && k in m :: AreSame(trim, m, j, k) || j == k || trim(j) != trim(k);
      assert forall k | k in m :: !IsRefused(trim, accept, m, k);
      Some(map k | k in m :: trim(k) := accept(m[k]).value)
  }

  function AcceptedModel(model: string): Option<string> {
    if TrimSpace(model) == "" then None else Some(TrimSpace(model))
  }

  function AcceptedBudget(b: Budget): Option<Budget> {
    if ValidBudget(b) then Some(b) else None
  }

  /** The group is bounded in bytes, and there has to be a role. */
  function NormalizedNaming(n: Naming): Option<Naming> {
    var group := TrimSpace(n.capacityGroup);
    if ByteLength(group) > 253 || n.roles == map[] then None
    else match Entries(TrimSpace, AcceptedModel, n.roles)
      case None => None
      case Some(roles) => Some(Naming(TrimSpace(n.image), roles, group))
  }

  function NormalizedContext(c: Context): Option<Context> {
    var percent := if c.compactAtPercent == 0 then 75 else c.compactAtPercent;
    if !InPercent(percent) || c.outputReservation < 0 then None
    else match Entries(TrimSpace, AcceptedBudget, c.roles)
      case None => None
      case Some(roles) => Some(Context(percent, c.outputReservation, roles))
  }

  /** The loop over a map, in whatever order it comes: the order does not matter. */
  method NormalizeEntries<V(==)>(trim: string -> string, accept: V -> Option<V>, m: map<string, V>)
    returns (r: Option<map<string, V>>)
    ensures r == Entries(trim, accept, m)
  {
    var done: map<string, V> := map[];
    var left := m.Keys;
    while left != {}
      invariant left <= m.Keys
      invariant IsTrimmedPart(trim, accept, m, m.Keys - left, done)
      decreases |left|
    {
      var k :| k in left;
      if trim(k) == "" || accept(m[k]).None? {
        assert IsRefused(trim, accept, m, k);
        return None;
      }
      if trim(k) in done {
        var j :| j in m.Keys - left && trim(j) == trim(k);
        assert AreSame(trim, m, j, k);
        return None;
      }
      PartGrows(trim, accept, m, m.Keys - left, done, k);
      assert m.Keys - (left - {k}) == (m.Keys - left) + {k};
      done := done[trim(k) := accept(m[k]).value];
      left := left - {k};
    }
    assert m.Keys - {} == m.Keys;
    WholeIsEntries(trim, accept, m, done);
    return Some(done);
  }

  /** The entries of the given names, each accepted and under its own trimmed name. */
  ghost predicate IsTrimmedPart<V>(trim: string -> string, accept: V -> Option<V>, m: map<string, V>, names: set<string>, done: map<string, V>)
    requires names <= m.Keys
  {
    && (forall k | k in names :: !IsRefused(trim, accept, m, k) && trim(k) in done && Some(done[trim(k)]) == accept(m[k]))
    && (forall j, k | j in names && k in names :: !AreSame(trim, m, j, k))
    && (forall key | key in done :: exists k :: k in names && trim(k) == key)
  }

  lemma {:induction false} WholeIsEntries<V>(trim: string -> string, accept: V -> Option<V>, m: map<string, V>, done: map<string, V>)
    requires IsTrimmedPart(trim, accept, m, m.Keys, done)
    ensures Entries(trim, accept, m) == Some(done)
  {
    var whole := Entries(trim, accept, m).value;
    forall key | key in done
      ensures key in whole && done[key] == whole[key]
    {
      var k :| k in m.Keys && trim(k) == key;
      assert trim(k) in whole;
    }
    forall key | key in whole
      ensures key in done
    {
      var k :| k in m && trim(k) == key;
      assert k in m.Keys;
    }
    assert whole == done;
  }

  lemma {:induction false} PartGrows<V>(trim: string -> string, accept: V -> Option<V>, m: map<string, V>, names: set<string>, done: map<string, V>, k: string)
    requires names <= m.Keys && IsTrimmedPart(trim, accept, m, names, done)
    requires k in m && k !in names && !IsRefused(trim, accept, m, k) && trim(k) !in done
    ensures IsTrimmedPart(trim, accept, m, names + {k}, done[trim(k) := accept(m[k]).value])
  {
    var more := done[trim(k) := accept(m[k]).value];
    forall key | key in more
      ensures exists n :: n in names + {k} && trim(n) == key
    {
      if key == trim(k) {
        assert k in names + {k};
      } else {
        var n :| n in names && trim(n) == key;
        assert n in names + {k};
      }
    }
  }

  function NormalizedRepair(r: Repair): Option<Repair> {
    if r.maxAttempts < 0 || r.maxAttempts > 5 then None
    else
      var r' := if r.window == 0 then r.(window := 1800) else r;
      if r'.window < 60 || r'.window > 21600 || "" in r.mechanicalChecks then None else Some(r')
  }

  /** A transport that is blank is kept as declared; any other has to name a wire format. */
  function NormalizedTransport(transport: string): Option<string> {
    var name := TrimSpace(transport);
    if name == "" then Some(transport)
    else if Lower(name) == "openai" then Some("openai")
    else if Lower(name) == "anthropic" then Some("anthropic")
    else None
  }

  predicate AreDistinct<T(==)>(s: seq<T>) {
    forall i, j | 0 <= i < j < |s| :: s[i] != s[j]
  }

  /** At most sixteen names, trimmed, each of them accepted and no two the same. */
  function NamesOf(trim: string -> string, accepts: string -> bool, names: seq<string>): Option<seq<string>> {
    var trimmed := seq(|names|, i requires 0 <= i < |names| => trim(names[i]));
    if |names| > 16 || (exists i | 0 <= i < |trimmed| :: !accepts(trimmed[i])) || !AreDistinct(trimmed) then None
    else Some(trimmed)
  }

  function NormalizedSkills(skills: seq<string>): Option<seq<string>> {
    NamesOf(TrimSpace, IsLabel, skills)
  }

  /** The parts put together; a part that was refused refuses the whole. */
  function Assembled(
    spec: Spec, naming: Option<Naming>, transport: Option<string>, context: Option<Option<Context>>, repair: Option<Option<Repair>>,
    skills: Option<seq<string>>): Option<Spec> {
    if spec.concurrency < 0 || naming.None? || transport.None? || context.None? || repair.None? || skills.None? then None
    else Some(Spec(if spec.concurrency == 0 then 1 else spec.concurrency, naming.value, transport.value, context.value,
                   repair.value, skills.value, spec.rest))
  }

  function DeclaredContext(context: Option<Context>): Option<Option<Context>> {
    if context.None? then Some(None)
    else match NormalizedContext(context.value) case None => None case Some(c) => Some(Some(c))
  }

  function DeclaredRepair(repair: Option<Repair>): Option<Option<Repair>> {
    if repair.None? then Some(None)
    else match NormalizedRepair(repair.value) case None => None case Some(r) => Some(Some(r))
  }

  function NormalizedSpec(spec: Spec): Option<Spec> {
    Assembled(spec, NormalizedNaming(spec.naming), NormalizedTransport(spec.transport), DeclaredContext(spec.context),
              DeclaredRepair(spec.ciRepair), NormalizedSkills(spec.skills))
  }

  function Normalized(p: Profile): Option<Profile> {
    if !IsLabel(TrimSpace(p.name)) then None
    else match NormalizedSpec(p.spec)
      case None => None
      case Some(spec) => Some(Profile(TrimSpace(p.name), spec))
  }

  function Names(profiles: seq<Profile>): seq<string> {
    seq(|profiles|, i requires 0 <= i < |profiles| => profiles[i].name)
  }

  /** The server stores the spec as it is. */
  predicate IsStorable(spec: Spec) {
    Stored(spec) == Some(spec)
  }

  /** A transport is left out or names something; it is not mere white space. */
  predicate IsUsableTransport(transport: string) {
    transport == "" || TrimSpace(transport) != ""
  }

  lemma {:induction false} WordStays(s: string)
    requires s != "" && !IsSpace(s[0]) && !IsSpace(s[|s| - 1])
    ensures TrimSpace(s) == s
  {
  }

  lemma {:induction false} BlankIsNotAdmitted(transport: string)
    requires TrimSpace(transport) == "" && transport != ""
    ensures !AdmitsTransport(transport)
  {
    if AdmitsTransport(transport) {
      WordStays(transport);
    }
  }

  lemma {:induction false} FormatIsAdmitted(transport: string, trimmed: string, name: string, r: Option<string>)
    requires r == if trimmed == "" then Some(transport) else if name == "openai" then Some("openai")
                  else if name == "anthropic" then Some("anthropic") else None
    requires r.Some? && (trimmed == "" && transport != "" ==> !AdmitsTransport(transport))
    ensures AdmitsTransport(r.value) <==> transport == "" || trimmed != ""
  {
  }

  lemma {:induction false} TransportIsAdmittedExactly(transport: string)
    requires NormalizedTransport(transport).Some?
    ensures AdmitsTransport(NormalizedTransport(transport).value) <==> IsUsableTransport(transport)
  {
    if TrimSpace(transport) == "" && transport != "" {
      BlankIsNotAdmitted(transport);
    }
    FormatIsAdmitted(transport, TrimSpace(transport), Lower(TrimSpace(transport)), NormalizedTransport(transport));
  }

  /** A spec that parses is stored as it is exactly when its transport is not
      mere white space, and is rejected otherwise. */
  lemma {:induction false} StoredAsIsExactly(spec: Spec)
    requires NormalizedSpec(spec).Some?
    ensures var n := NormalizedSpec(spec).value;
            && (IsStorable(n) <==> IsUsableTransport(spec.transport))
            && (Stored(n).None? <==> !IsUsableTransport(spec.transport))
  {
    TransportIsAdmittedExactly(spec.transport);
    NamingIsAdmitted(spec.naming);
    ContextIsAdmitted(spec.context);
    RepairIsAdmitted(spec.ciRepair);
    SkillsAreAdmitted(spec.skills);
    RestIsAdmitted(spec, NormalizedNaming(spec.naming), NormalizedTransport(spec.transport), DeclaredContext(spec.context),
                   DeclaredRepair(spec.ciRepair), NormalizedSkills(spec.skills));
  }

  lemma {:induction false} NamingIsAdmitted(n: Naming)
    requires NormalizedNaming(n).Some?
    ensures AdmitsNaming(NormalizedNaming(n).value)
  {
    BytesCoverCharacters(TrimSpace(n.capacityGroup));
  }

  /** Every value of a normalised map was accepted. */
  lemma {:induction false} EntriesAreAccepted<V>(trim: string -> string, accept: V -> Option<V>, m: map<string, V>)
    requires Entries(trim, accept, m).Some?
    ensures var r := Entries(trim, accept, m).value; forall key | key in r :: exists k :: k in m && accept(m[k]) == Some(r[key])
  {
    var r := Entries(trim, accept, m).value;
    forall key | key in r
      ensures exists k :: k in m && accept(m[k]) == Some(r[key])
    {
      var k :| k in m && trim(k) == key;
      assert !IsRefused(trim, accept, m, k);
    }
  }

  lemma {:induction false} ContextIsAdmitted(context: Option<Context>)
    requires DeclaredContext(context).Some?
    ensures AdmitsContext(DeclaredContext(context).value)
  {
    if context.Some? {
      EntriesAreAccepted(TrimSpace, AcceptedBudget, context.value.roles);
    }
  }

  lemma {:induction false} RepairIsAdmitted(repair: Option<Repair>)
    requires DeclaredRepair(repair).Some?
    ensures AdmitsRepair(DeclaredRepair(repair).value)
  {
  }

  lemma {:induction false} SkillsAreAdmitted(skills: seq<string>)
    requires NormalizedSkills(skills).Some?
    ensures AdmitsSkills(NormalizedSkills(skills).value)
  {
  }

  /** Everything but the transport is a fixed point of the defaults and within the schema. */
  lemma {:induction false} RestIsAdmitted(
    spec: Spec, naming: Option<Naming>, transport: Option<string>, context: Option<Option<Context>>, repair: Option<Option<Repair>>,
    skills: Option<seq<string>>)
    requires Assembled(spec, naming, transport, context, repair, skills).Some?
    requires AdmitsNaming(naming.value) && AdmitsContext(context.value) && AdmitsRepair(repair.value) && AdmitsSkills(skills.value)
    ensures var n := Assembled(spec, naming, transport, context, repair, skills).value;
            Defaulted(n) == n && (SchemaAdmits(n) <==> AdmitsTransport(transport.value))
  {
  }

  /** Any spec that parses still parses with a transport of blanks, and is then
      never stored. */
  lemma {:induction false} BlankTransportIsNeverStored(spec: Spec)
    requires NormalizedSpec(spec).Some?
    ensures var n := NormalizedSpec(spec.(transport := "  ")); n.Some? && Stored(n.value).None?
  {
    BlankTrims();
    StoredAsIsExactly(spec.(transport := "  "));
  }

  lemma {:induction false} BlankTrims()
    ensures TrimSpace("  ") == "" && NormalizedTransport("  ") == Some("  ")
  {
    assert "  "[1..] == " " && " "[1..] == "";
    assert TrimLeft("  ") == TrimLeft(" ") == TrimLeft("") == "";
  }

  // ---- exactly which entries parse, and to what ----

  /** A label: at most 63 lower-case letters, digits and hyphens, no hyphen at an end. */
  lemma {:induction false} LabelsExactly(s: string)
    ensures IsLabel(s) <==>
            && 1 <= |s| <= 63 && s[0] != '-' && s[|s| - 1] != '-'
            && forall i | 0 <= i < |s| :: s[i] == '-' || '0' <= s[i] <= '9' || 'a' <= s[i] <= 'z'
  {
  }

  /** A map of names parses exactly when every trimmed name and every value is
      accepted and no two names trim to one; its entries are the accepted values
      under the trimmed names. */
  lemma {:induction false} EntriesExactly<V>(trim: string -> string, accept: V -> Option<V>, m: map<string, V>)
    ensures Entries(trim, accept, m).Some? <==>
            && (forall k | k in m :: trim(k) != "" && accept(m[k]).Some?)
            && (forall j, k | j in m && k in m && j != k :: trim(j) != trim(k))
    ensures Entries(trim, accept, m).Some? ==>
            var r := Entries(trim, accept, m).value;
            && (forall k | k in m :: trim(k) in r && Some(r[trim(k)]) == accept(m[k]))
            && (forall key | key in r :: exists k :: k in m && trim(k) == key)
  {
    assert forall k | k in m :: IsRefused(trim, accept, m, k) <==> trim(k) == "" || accept(m[k]).None?;
    assert forall j, k | j in m && k in m :: AreSame(trim, m, j, k) <==> j != k && trim(j) == trim(k);
  }

  /** Models are accepted exactly when they are not blank, under any trimming. */
  lemma {:induction false} RolesExactly(trim: string -> string, accept: string -> Option<string>, m: map<string, string>)
    requires forall s :: accept(s) == if trim(s) == "" then None else Some(trim(s))
    ensures Entries(trim, accept, m).Some? <==>
            && (forall k | k in m :: trim(k) != "" && trim(m[k]) != "")
            && (forall j, k | j in m && k in m && j != k :: trim(j) != trim(k))
    ensures Entries(trim, accept, m).Some? ==>
            var r := Entries(trim, accept, m).value; forall k | k in m :: trim(k) in r && r[trim(k)] == trim(m[k])
  {
    EntriesExactly(trim, accept, m);
  }

  lemma {:induction false} ModelsExactly(m: map<string, string>)
    ensures Entries(TrimSpace, AcceptedModel, m).Some? <==>
            && (forall k | k in m :: TrimSpace(k) != "" && TrimSpace(m[k]) != "")
            && (forall j, k | j in m && k in m && j != k :: TrimSpace(j) != TrimSpace(k))
    ensures Entries(TrimSpace, AcceptedModel, m).Some? ==>
            var r := Entries(TrimSpace, AcceptedModel, m).value;
            forall k | k in m :: TrimSpace(k) in r && r[TrimSpace(k)] == TrimSpace(m[k])
  {
    RolesExactly(TrimSpace, AcceptedModel, m);
  }

  /** Budgets are accepted exactly when they are within bounds, and then as they are. */
  lemma {:induction false} BudgetsExactly(trim: string -> string, m: map<string, Budget>)
    ensures Entries(trim, AcceptedBudget, m).Some? <==>
            && (forall k | k in m ::
                  && trim(k) != "" && m[k].maxInputTokens >= 0 && 0 <= m[k].compactAtPercent <= 99
                  && m[k].outputReservation >= 0)
            && (forall j, k | j in m && k in m && j != k :: trim(j) != trim(k))
    ensures Entries(trim, AcceptedBudget, m).Some? ==>
            var r := Entries(trim, AcceptedBudget, m).value; forall k | k in m :: trim(k) in r && r[trim(k)] == m[k]
  {
    EntriesExactly(trim, AcceptedBudget, m);
  }

  /** Image, roles and capacity group: there is a role, the roles are accepted, and
      the group is at most 253 bytes. */
  lemma {:induction false} NamingExactly(n: Naming)
    ensures NormalizedNaming(n).Some? <==>
            && ByteLength(TrimSpace(n.capacityGroup)) <= 253 && n.roles.Keys != {}
            && Entries(TrimSpace, AcceptedModel, n.roles).Some?
    ensures NormalizedNaming(n).Some? ==>
            NormalizedNaming(n).value
            == Naming(TrimSpace(n.image), Entries(TrimSpace, AcceptedModel, n.roles).value, TrimSpace(n.capacityGroup))
  {
    assert n.roles == map[] <==> n.roles.Keys == {};
  }

  /** A declared context policy: its percentage is left out or a percentage, nothing
      is negative, and its budgets are accepted; 75 stands for a percentage left out. */
  lemma {:induction false} ContextExactly(c: Context)
    ensures DeclaredContext(None) == Some(None)
    ensures DeclaredContext(Some(c)).Some? <==>
            0 <= c.compactAtPercent <= 99 && c.outputReservation >= 0 && Entries(TrimSpace, AcceptedBudget, c.roles).Some?
    ensures DeclaredContext(Some(c)).Some? ==>
            DeclaredContext(Some(c)).value
            == Some(Context(if c.compactAtPercent == 0 then 75 else c.compactAtPercent, c.outputReservation,
                            Entries(TrimSpace, AcceptedBudget, c.roles).value))
  {
  }

  /** A declared repair policy: at most five attempts, a window of 60 to 21600 seconds
      or left out, which stands for 1800, and no empty check name. */
  lemma {:induction false} RepairExactly(r: Repair)
    ensures DeclaredRepair(None) == Some(None)
    ensures DeclaredRepair(Some(r)).Some? <==>
            0 <= r.maxAttempts <= 5 && (r.window == 0 || 60 <= r.window <= 21600) && "" !in r.mechanicalChecks
    ensures DeclaredRepair(Some(r)).Some? ==>
            DeclaredRepair(Some(r)).value
            == Some(Repair(r.mechanicalChecks, r.maxAttempts, if r.window == 0 then 1800 else r.window))
  {
  }

  /** A transport names a wire format in any case, or is blank and kept as it is. */
  lemma {:induction false} TransportsExactly(transport: string)
    ensures var name := Lower(TrimSpace(transport));
            && (NormalizedTransport(transport).Some? <==> TrimSpace(transport) == "" || name == "openai" || name == "anthropic")
            && (NormalizedTransport(transport).Some? ==>
                  NormalizedTransport(transport).value == if TrimSpace(transport) == "" then transport else name)
  {
  }

  lemma {:induction false} NamesExactly(trim: string -> string, accepts: string -> bool, names: seq<string>)
    ensures NamesOf(trim, accepts, names).Some? <==>
            && |names| <= 16 && (forall i | 0 <= i < |names| :: accepts(trim(names[i])))
            && forall i, j | 0 <= i < j < |names| :: trim(names[i]) != trim(names[j])
    ensures NamesOf(trim, accepts, names).Some? ==>
            var r := NamesOf(trim, accepts, names).value; |r| == |names| && forall i | 0 <= i < |names| :: r[i] == trim(names[i])
  {
    var trimmed := seq(|names|, i requires 0 <= i < |names| => trim(names[i]));
    assert forall i | 0 <= i < |names| :: trimmed[i] == trim(names[i]);
  }

  /** Skills: at most sixteen distinct labels after trimming, kept in order. */
  lemma {:induction false} SkillsExactly(skills: seq<string>)
    ensures NormalizedSkills(skills).Some? <==>
            && |skills| <= 16 && (forall i | 0 <= i < |skills| :: IsLabel(TrimSpace(skills[i])))
            && forall i, j | 0 <= i < j < |skills| :: TrimSpace(skills[i]) != TrimSpace(skills[j])
    ensures NormalizedSkills(skills).Some? ==>
            var r := NormalizedSkills(skills).value; |r| == |skills| && forall i | 0 <= i < |skills| :: r[i] == TrimSpace(skills[i])
  {
    NamesExactly(TrimSpace, IsLabel, skills);
  }

  /** The whole parses exactly when each of its parts does; an omitted concurrency is
      one, and what is not parsed is handed on. */
  lemma {:induction false} AssembledExactly(
    spec: Spec, naming: Option<Naming>, transport: Option<string>, context: Option<Option<Context>>, repair: Option<Option<Repair>>,
    skills: Option<seq<string>>, r: Option<Spec>)
    requires r == Assembled(spec, naming, transport, context, repair, skills)
    ensures r.Some? <==>
            spec.concurrency >= 0 && naming.Some? && transport.Some? && context.Some? && repair.Some? && skills.Some?
    ensures r.Some? ==>
            && r.value.concurrency == (if spec.concurrency == 0 then 1 else spec.concurrency) && r.value.rest == spec.rest
            && Some(r.value.naming) == naming && Some(r.value.transport) == transport && Some(r.value.context) == context
            && Some(r.value.ciRepair) == repair && Some(r.value.skills) == skills
  {
  }

  lemma {:induction false} SpecsExactly(spec: Spec)
    ensures var r := NormalizedSpec(spec);
            r.Some? <==>
            && spec.concurrency >= 0 && NormalizedNaming(spec.naming).Some? && NormalizedTransport(spec.transport).Some?
            && DeclaredContext(spec.context).Some? && DeclaredRepair(spec.ciRepair).Some? && NormalizedSkills(spec.skills).Some?
    ensures var r := NormalizedSpec(spec);
            r.Some? ==>
            && r.value.concurrency == (if spec.concurrency == 0 then 1 else spec.concurrency) && r.value.rest == spec.rest
            && Some(r.value.naming) == NormalizedNaming(spec.naming)
            && Some(r.value.transport) == NormalizedTransport(spec.transport)
            && Some(r.value.context) == DeclaredContext(spec.context) && Some(r.value.ciRepair) == DeclaredRepair(spec.ciRepair)
            && Some(r.value.skills) == NormalizedSkills(spec.skills)
  {
    AssembledExactly(spec, NormalizedNaming(spec.naming), NormalizedTransport(spec.transport), DeclaredContext(spec.context),
                     DeclaredRepair(spec.ciRepair), NormalizedSkills(spec.skills), NormalizedSpec(spec));
  }

  /** An entry parses exactly when its trimmed name is a label and its spec parses. */
  lemma {:induction false} ProfilesExactly(p: Profile)
    ensures Normalized(p).Some? <==> IsLabel(TrimSpace(p.name)) && NormalizedSpec(p.spec).Some?
    ensures Normalized(p).Some? ==>
            Normalized(p).value.name == TrimSpace(p.name) && Some(Normalized(p).value.spec) == NormalizedSpec(p.spec)
  {
  }

  /** What the schema admits, field by field, once its defaults are filled in. */
  lemma {:induction false} AdmitsExactly(spec: Spec)
    ensures Stored(spec).Some? <==>
            && spec.concurrency >= 1 && |spec.naming.capacityGroup| <= 253 && spec.transport in {"", "openai", "anthropic"}
            && (spec.context.Some? ==>
                  var c := spec.context.value;
                  && 0 <= c.compactAtPercent <= 99 && c.outputReservation >= 0
                  && forall k | k in c.roles ::
                       c.roles[k].maxInputTokens >= 0 && 0 <= c.roles[k].compactAtPercent <= 99 && c.roles[k].outputReservation >= 0)
            && (spec.ciRepair.Some? ==>
                  0 <= spec.ciRepair.value.maxAttempts <= 5
                  && (spec.ciRepair.value.window == 0 || 60 <= spec.ciRepair.value.window <= 21600))
            && |spec.skills| <= 16 && forall i | 0 <= i < |spec.skills| :: IsLabel(spec.skills[i])
    ensures Stored(spec).Some? ==>
            var r := Stored(spec).value;
            && r.(context := None, ciRepair := None) == spec.(context := None, ciRepair := None)
            && (spec.context.None? ==> r.context.None?) && (spec.ciRepair.None? ==> r.ciRepair.None?)
            && (spec.context.Some? ==>
                  r.context == Some(spec.context.value.(
                    compactAtPercent := if spec.context.value.compactAtPercent == 0 then 75 else spec.context.value.compactAtPercent)))
            && (spec.ciRepair.Some? ==>
                  r.ciRepair == Some(spec.ciRepair.value.(window := if spec.ciRepair.value.window == 0 then 1800 else spec.ciRepair.value.window)))
  {
  }

  /** The parser's loop over any normalisation of one entry. */
  method ParseWith(documents: seq<Profile>, normalize: Profile -> Option<Profile>) returns (r: Option<seq<Profile>>)
    ensures r.Some? ==> |r.value| == |documents| && AreDistinct(Names(r.value))
    ensures r.Some? ==> forall i | 0 <= i < |documents| :: normalize(documents[i]) == Some(r.value[i])
    ensures r.None? ==>
            || (exists i | 0 <= i < |documents| :: normalize(documents[i]).None?)
            || (exists i, j | 0 <= i < j < |documents| ::
                  && normalize(documents[i]).Some? && normalize(documents[j]).Some?
                  && normalize(documents[i]).value.name == normalize(documents[j]).value.name)
  {
    var profiles: seq<Profile>, seen: set<string> := [], {};
    for i := 0 to |documents|
      invariant |profiles| == i && forall k | 0 <= k < i :: normalize(documents[k]) == Some(profiles[k])
      invariant seen == set k | 0 <= k < i :: profiles[k].name
      invariant forall j, k | 0 <= j < k < i :: profiles[j].name != profiles[k].name
    {
      var normalized := normalize(documents[i]);
      if normalized.None? {
        return None;
      }
      if normalized.value.name in seen {
        ghost var k :| 0 <= k < i && profiles[k].name == normalized.value.name;
        assert normalize(documents[k]).value.name == normalize(documents[i]).value.name;
        return None;
      }
      seen := seen + {normalized.value.name};
      profiles := profiles + [normalized.value];
    }
    return Some(profiles);
  }

  /** An accepted document holds distinct names, and each of its specs is stored
      as it is exactly when its transport is not mere white space. */
  method Parse(documents: seq<Profile>) returns (r: Option<seq<Profile>>)
    ensures r.Some? ==> |r.value| == |documents| && AreDistinct(Names(r.value))
    ensures r.Some? ==> forall i | 0 <= i < |documents| :: Normalized(documents[i]) == Some(r.value[i])
    ensures r.Some? ==> forall i | 0 <= i < |documents| ::
              IsStorable(r.value[i].spec) <==> IsUsableTransport(documents[i].spec.transport)
    ensures r.None? ==>
            || (exists i | 0 <= i < |documents| :: Normalized(documents[i]).None?)
            || (exists i, j | 0 <= i < j < |documents| ::
                  && Normalized(documents[i]).Some? && Normalized(documents[j]).Some?
                  && Normalized(documents[i]).value.name == Normalized(documents[j]).value.name)
  {
    r := ParseWith(documents, Normalized);
    if r.Some? {
      forall i | 0 <= i < |documents|
        ensures IsStorable(r.value[i].spec) <==> IsUsableTransport(documents[i].spec.transport)
      {
        NormalizedIsStorable(documents[i], r.value[i]);
      }
    }
  }

  lemma {:induction false} NormalizedIsStorable(raw: Profile, p: Profile)
    requires Normalized(raw) == Some(p)
    ensures IsStorable(p.spec) <==> IsUsableTransport(raw.spec.transport)
  {
    StoredAsIsExactly(raw.spec);
  }
}
