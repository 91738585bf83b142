/**
 The cache of Oxide clients: one per OxideConnection name, under a tag printed from the view it was
 built for, by which later callers with the same view get it back.
 */
module ClientCache {
  import opened Common
  import opened Decimal

  datatype SecretKey = SecretKey(space: string, name: string)

  datatype ConnectionSpec = ConnectionSpec(host: string, secret: SecretKey, key: string, insecure: bool)

  /** A caller's copy of an OxideConnection, of whatever age; observed is empty until a version is recorded. */
  datatype View = View(name: string, uid: string, generation: nat, spec: ConnectionSpec, observed: string)

  datatype Client = Client(host: string, token: string, insecure: bool)

  datatype Cached = Cached(tag: string, client: Client)

  /** A Secret as last written at a revision of the API server; its resourceVersion is that revision printed. */
  datatype Secret = Secret(version: nat, data: map<string, string>)

  type Snapshot = map<SecretKey, Secret>

  /** The API server's Secrets after each revision. */
  type History = seq<Snapshot>

  // --- Building a client ---

  predicate IsSpace(ch: char) {
    || '\U{0009}' <= ch <= '\U{000D}' || ch in {' ', '\U{0085}', '\U{00A0}', '\U{1680}'}
    || '\U{2000}' <= ch <= '\U{200A}' || ch in {'\U{2028}', '\U{2029}', '\U{202F}', '\U{205F}', '\U{3000}'}
  }

  function TrimSpace(s: string): (trimmed: string)
    ensures trimmed == "" <==> forall i :: 0 <= i < |s| ==> IsSpace(s[i])
    ensures trimmed != "" ==> !IsSpace(trimmed[0]) && !IsSpace(trimmed[|trimmed| - 1])
    decreases |s|
  {
    if s == "" then s
    else if IsSpace(s[0]) then TrimSpace(s[1..])
    else if IsSpace(s[|s| - 1]) then TrimSpace(s[..|s| - 1])
    else s
  }

  /** What is cut off is all space. */
  lemma {:induction false} TrimmedIsMiddle(s: string) returns (i: nat, j: nat)
    ensures i <= j <= |s| && TrimSpace(s) == s[i..j]
    ensures SpaceAround(s, i, j)
    decreases |s|
  {
    i, j := 0, |s|;
    if s != "" && IsSpace(s[0]) {
      var a, b := TrimmedIsMiddle(s[1..]);
      i, j := a + 1, b + 1;
      LeadingSpace(s, a, b);
    } else if s != "" && IsSpace(s[|s| - 1]) {
      i, j := TrimmedIsMiddle(s[..|s| - 1]);
      TrailingSpace(s, i, j);
    }
  }

  /** Blanks, tabs, line ends and the other white space of Latin-1. */
  predicate IsBlank(s: string) {
    forall i :: 0 <= i < |s| ==>
                  s[i] in {' ', '\t', '\n', '\U{000B}', '\U{000C}', '\r', '\U{0085}', '\U{00A0}'}
  }

  /** A token stored with blanks or line ends around it is the token, if it has no white space at its ends. */
  lemma {:induction false} TokenAmongBlanks(before: string, token: string, after: string)
    requires IsBlank(before) && IsBlank(after)
    requires token != "" && !IsSpace(token[0]) && !IsSpace(token[|token| - 1])
    ensures TrimSpace(before + token + after) == token
    decreases |before| + |after|
  {
    var s := before + token + after;
    if before != "" {
      assert s[1..] == before[1..] + token + after;
      TokenAmongBlanks(before[1..], token, after);
    } else if after != "" {
      assert s[..|s| - 1] == before + token + after[..|after| - 1];
      assert s[0] == token[0];
      TokenAmongBlanks(before, token, after[..|after| - 1]);
    } else {
      assert s == token;
    }
  }

  predicate SpaceAround(s: string, i: nat, j: nat) {
    forall k :: 0 <= k < |s| && !(i <= k < j) ==> IsSpace(s[k])
  }

  lemma LeadingSpace(s: string, a: nat, b: nat)
    requires s != "" && IsSpace(s[0]) && a <= b < |s| && SpaceAround(s[1..], a, b)
    ensures SpaceAround(s, a + 1, b + 1) && s[1..][a..b] == s[a + 1..b + 1]
  {
    forall k | 1 <= k < |s| && !(a + 1 <= k < b + 1)
      ensures IsSpace(s[k])
    {
      assert s[1..][k - 1] == s[k];
    }
  }

  lemma TrailingSpace(s: string, i: nat, j: nat)
    requires s != "" && IsSpace(s[|s| - 1]) && i <= j < |s| && SpaceAround(s[..|s| - 1], i, j)
    ensures SpaceAround(s, i, j) && s[..|s| - 1][i..j] == s[i..j]
  {
    forall k | 0 <= k < |s| - 1 && !(i <= k < j)
      ensures IsSpace(s[k])
    {
      assert s[..|s| - 1][k] == s[k];
    }
  }

  /** What newClient makes of the Secrets it finds; a missing Secret or a blank token is an error. */
  function Build(spec: ConnectionSpec, secrets: Snapshot): Option<Client> {
    if spec.secret !in secrets then None else
      var data := secrets[spec.secret].data;
      var token := TrimSpace(if spec.key in data then data[spec.key] else "");
      if token == "" then None else Some(Client(spec.host, token, spec.insecure))
  }

  /** The Secret is there and has the key, with something besides white space under it. */
  predicate HasToken(spec: ConnectionSpec, secrets: Snapshot) {
    && spec.secret in secrets && spec.key in secrets[spec.secret].data
    && exists i :: 0 <= i < |secrets[spec.secret].data[spec.key]| && !IsSpace(secrets[spec.secret].data[spec.key][i])
  }

  /** It has the spec's host and TLS setting and the token trimmed. */
  predicate Serves(client: Client, spec: ConnectionSpec, secrets: Snapshot) {
    && client.host == spec.host && client.insecure == spec.insecure
    && spec.secret in secrets && spec.key in secrets[spec.secret].data
    && client.token == TrimSpace(secrets[spec.secret].data[spec.key])
  }

  /** A client can be built exactly when there is a token to build it with. */
  lemma BuildIff(spec: ConnectionSpec, secrets: Snapshot)
    ensures Build(spec, secrets).Some? <==> HasToken(spec, secrets)
    ensures Build(spec, secrets).Some? ==> Serves(Build(spec, secrets).value, spec, secrets)
  {
  }

  // --- The tag ---

  function Tag(uid: string, generation: nat, observed: string): string {
    uid + "/" + (Dec(generation) + "/" + observed)
  }

  lemma SlashPosition(a: string, x: string, b: string, y: string)
    requires '/' !in a && '/' !in b && a + "/" + x == b + "/" + y
    ensures |a| >= |b|
  {
    assert (b + "/" + y)[|a|] == '/';
  }

  lemma SplitAtSlash(a: string, x: string, b: string, y: string)
    requires '/' !in a && '/' !in b && a + "/" + x == b + "/" + y
    ensures a == b && x == y
  {
    SlashPosition(a, x, b, y);
    SlashPosition(b, y, a, x);
    assert a == (a + "/" + x)[..|a|] == b;
    assert x == (a + "/" + x)[|a| + 1..] == y;
  }

  /** A UID has no slash, so the tag determines what it was printed from. */
  lemma TagInjective(u: string, g: nat, o: string, v: string, h: nat, p: string)
    requires '/' !in u && '/' !in v && Tag(u, g, o) == Tag(v, h, p)
    ensures u == v && g == h && o == p
  {
    assert !IsDigit('/');
    SplitAtSlash(u, Dec(g) + "/" + o, v, Dec(h) + "/" + p);
    SplitAtSlash(Dec(g), o, Dec(h), p);
    DecInjective(g, h);
  }

  // --- The API server ---

  /** A Secret carries the revision that wrote it, and has not changed since. */
  predicate Evolving(history: History) {
    forall r, k :: 0 <= r < |history| && k in history[r] ==>
                     history[r][k].version <= r && Steady(history, k, history[r][k], r)
  }

  predicate Steady(history: History, k: SecretKey, secret: Secret, r: nat)
    requires r < |history|
  {
    forall q :: secret.version <= q <= r ==> k in history[q] && history[q][k] == secret
  }

  // --- Many callers at once ---

  /** recorded holds every Secret version the connection controller ever wrote to a status. */
  datatype State = State(clients: map<string, Cached>, history: History, recorded: set<string>)

  datatype Step =
    | Write(next: Snapshot)            // someone changes Secrets
    | Record(spec: ConnectionSpec)     // the connection controller reads a Secret's version for a status
    | Ask(view: View, works: bool)     // ClientFor; whether the read and the SDK's constructor work

  predicate Hit(clients: map<string, Cached>, view: View) {
    view.name in clients && clients[view.name].tag == Tag(view.uid, view.generation, view.observed)
  }

  function Answer(s: State, view: View, works: bool): Option<Client>
    requires s.history != []
  {
    if Hit(s.clients, view) then Some(s.clients[view.name].client)
    else if works then Build(view.spec, s.history[|s.history| - 1])
    else None
  }

  function Remember(clients: map<string, Cached>, view: View, answer: Option<Client>): map<string, Cached> {
    if answer.None? then clients
    else clients[view.name := Cached(Tag(view.uid, view.generation, view.observed), answer.value)]
  }

  predicate Allowed(s: State, step: Step, specOf: (string, nat) -> ConnectionSpec) {
    match step
    case Write(next) => Evolving(s.history + [next])
    case Record(_) => true
    case Ask(view, _) =>
      // The spec of an object is fixed by its UID and generation; its status was written by the controller.
      && '/' !in view.uid && view.spec == specOf(view.uid, view.generation)
      && (view.observed == "" || view.observed in s.recorded)
  }

  function After(s: State, step: Step): State
    requires s.history != []
  {
    match step
    case Write(next) => s.(history := s.history + [next])
    case Record(spec) =>
      var now := s.history[|s.history| - 1];
      if spec.secret in now then s.(recorded := s.recorded + {Dec(now[spec.secret].version)}) else s
    case Ask(view, works) => s.(clients := Remember(s.clients, view, Answer(s, view, works)))
  }

  predicate IsRun(states: seq<State>, steps: seq<Step>, specOf: (string, nat) -> ConnectionSpec) {
    && |states| == |steps| + 1
    && states[0].clients == map[] && states[0].recorded == {} && |states[0].history| == 1 && Evolving(states[0].history)
    && forall k :: 0 <= k < |steps| ==>
                     && states[k].history != [] && Allowed(states[k], steps[k], specOf)
                     && states[k + 1] == After(states[k], steps[k])
  }

  // --- What holds throughout ---

  /** The client could have been built at revision r, which is no older than the recorded version. */
  ghost predicate BuiltAt(client: Client, spec: ConnectionSpec, observed: string, history: History, r: nat) {
    r < |history| && Build(spec, history[r]) == Some(client) && forall v: nat :: observed == Dec(v) ==> v <= r
  }

  ghost predicate Sound(client: Client, spec: ConnectionSpec, observed: string, history: History) {
    exists r: nat :: BuiltAt(client, spec, observed, history, r)
  }

  /** Whoever the tag fits is well served by the entry. */
  ghost predicate SoundEntry(entry: Cached, history: History, specOf: (string, nat) -> ConnectionSpec) {
    forall uid, generation, observed :: '/' !in uid && entry.tag == Tag(uid, generation, observed) ==>
                                          Sound(entry.client, specOf(uid, generation), observed, history)
  }

  ghost predicate Inv(s: State, specOf: (string, nat) -> ConnectionSpec) {
    && s.history != [] && Evolving(s.history)
    && (forall o :: o in s.recorded ==> exists v: nat :: v < |s.history| && o == Dec(v))
    && forall n :: n in s.clients ==> SoundEntry(s.clients[n], s.history, specOf)
  }

  lemma SoundLater(client: Client, spec: ConnectionSpec, observed: string, history: History, next: Snapshot)
    requires Sound(client, spec, observed, history)
    ensures Sound(client, spec, observed, history + [next])
  {
    var r: nat :| BuiltAt(client, spec, observed, history, r);
    assert BuiltAt(client, spec, observed, history + [next], r);
  }

  /** Whatever ClientFor answers is built for the caller's own spec, at the version it knows of or later. */
  lemma AnswerIsSound(s: State, view: View, works: bool, specOf: (string, nat) -> ConnectionSpec)
    requires Inv(s, specOf) && Allowed(s, Ask(view, works), specOf)
    ensures Answer(s, view, works).Some? ==>
              Sound(Answer(s, view, works).value, view.spec, view.observed, s.history)
  {
    var answer := Answer(s, view, works);
    if answer.Some? && !Hit(s.clients, view) {
      forall v: nat | view.observed == Dec(v)
        ensures v < |s.history|
      {
        var w: nat :| w < |s.history| && view.observed == Dec(w);
        DecInjective(v, w);
      }
      assert BuiltAt(answer.value, view.spec, view.observed, s.history, |s.history| - 1);
    }
  }

  lemma RememberedIsSound(s: State, view: View, works: bool, specOf: (string, nat) -> ConnectionSpec)
    requires Inv(s, specOf) && Allowed(s, Ask(view, works), specOf)
    ensures Inv(After(s, Ask(view, works)), specOf)
  {
    AnswerIsSound(s, view, works, specOf);
    var answer := Answer(s, view, works);
    if answer.Some? {
      var entry := Cached(Tag(view.uid, view.generation, view.observed), answer.value);
      forall uid, generation, observed | '/' !in uid && entry.tag == Tag(uid, generation, observed)
        ensures Sound(entry.client, specOf(uid, generation), observed, s.history)
      {
        TagInjective(uid, generation, observed, view.uid, view.generation, view.observed);
      }
      assert SoundEntry(entry, s.history, specOf);
    }
  }

  lemma StepKeepsInv(s: State, step: Step, specOf: (string, nat) -> ConnectionSpec)
    requires Inv(s, specOf) && Allowed(s, step, specOf)
    ensures Inv(After(s, step), specOf)
  {
    match step
    case Write(next) =>
      forall n, uid, generation, observed
        | n in s.clients && '/' !in uid && s.clients[n].tag == Tag(uid, generation, observed)
        ensures Sound(s.clients[n].client, specOf(uid, generation), observed, s.history + [next])
      {
        SoundLater(s.clients[n].client, specOf(uid, generation), observed, s.history, next);
      }
    case Record(spec) =>
    case Ask(view, works) =>
      RememberedIsSound(s, view, works, specOf);
  }

  lemma {:induction false} RunKeepsInv(states: seq<State>, steps: seq<Step>, specOf: (string, nat) -> ConnectionSpec,
      k: nat)
    requires IsRun(states, steps, specOf) && k < |states|
    ensures Inv(states[k], specOf)
  {
    if k > 0 {
      RunKeepsInv(states, steps, specOf, k - 1);
      StepKeepsInv(states[k - 1], steps[k - 1], specOf);
    }
  }

  /** The Secret's version only grows while it exists. */
  lemma VersionsGrow(history: History, k: SecretKey, q: nat, r: nat)
    requires Evolving(history) && q <= r < |history| && k in history[q] && k in history[r]
    ensures history[q][k].version <= history[r][k].version
  {
    if history[r][k].version <= q {
      assert Steady(history, k, history[r][k], r);
    }
  }

  /**
   In every run, whoever asks with a view however stale gets a client for that view's UID and generation,
   with the token of a Secret version no older than the one the view's status records.
   */
  lemma ClientsServeTheirCallers(states: seq<State>, steps: seq<Step>, specOf: (string, nat) -> ConnectionSpec, k: nat)
      returns (r: nat)
    requires IsRun(states, steps, specOf) && k < |steps| && steps[k].Ask?
    requires Answer(states[k], steps[k].view, steps[k].works).Some?
    ensures var view, history := steps[k].view, states[k].history;
            var client := Answer(states[k], view, steps[k].works).value;
            var spec := specOf(view.uid, view.generation);
            && client.host == spec.host && client.insecure == spec.insecure
            && r < |history| && spec.secret in history[r] && spec.key in history[r][spec.secret].data
            && client.token == TrimSpace(history[r][spec.secret].data[spec.key]) != ""
            && forall q :: 0 <= q < |history| && spec.secret in history[q]
                           && view.observed == Dec(history[q][spec.secret].version) ==>
                             history[q][spec.secret].version <= history[r][spec.secret].version
  {
    var s, view := states[k], steps[k].view;
    var spec := specOf(view.uid, view.generation);
    RunKeepsInv(states, steps, specOf, k);
    AnswerIsSound(s, view, steps[k].works, specOf);
    r :| BuiltAt(Answer(s, view, steps[k].works).value, spec, view.observed, s.history, r);
    forall q | 0 <= q < |s.history| && spec.secret in s.history[q]
               && view.observed == Dec(s.history[q][spec.secret].version)
      ensures s.history[q][spec.secret].version <= s.history[r][spec.secret].version
    {
      var v := s.history[q][spec.secret].version;
      assert Steady(s.history, spec.secret, s.history[q][spec.secret], q);
      VersionsGrow(s.history, spec.secret, v, r);
    }
  }

  /** Once the current version is recorded, a view that has it gets the client that building afresh gives. */
  lemma RecordedRotationIsServed(states: seq<State>, steps: seq<Step>, specOf: (string, nat) -> ConnectionSpec, k: nat)
    requires IsRun(states, steps, specOf) && k < |steps| && steps[k].Ask?
    requires Answer(states[k], steps[k].view, steps[k].works).Some?
    requires var now := states[k].history[|states[k].history| - 1];
             && steps[k].view.spec.secret in now
             && steps[k].view.observed == Dec(now[steps[k].view.spec.secret].version)
    ensures Answer(states[k], steps[k].view, steps[k].works)
            == Build(steps[k].view.spec, states[k].history[|states[k].history| - 1])
  {
    var s, view := states[k], steps[k].view;
    RunKeepsInv(states, steps, specOf, k);
    AnswerIsSound(s, view, steps[k].works, specOf);
    var r: nat :| BuiltAt(Answer(s, view, steps[k].works).value, view.spec, view.observed, s.history, r);
    var last := |s.history| - 1;
    assert Steady(s.history, view.spec.secret, s.history[last][view.spec.secret], last);
  }

  // --- Who is answered ---

  /** The k-th step asked for the client of that name and got one. */
  predicate Served(states: seq<State>, steps: seq<Step>, specOf: (string, nat) -> ConnectionSpec, k: nat, name: string)
    requires IsRun(states, steps, specOf) && k < |steps|
  {
    steps[k].Ask? && steps[k].view.name == name && Answer(states[k], steps[k].view, steps[k].works).Some?
  }

  /** The j-th step was the last one to, before the k-th. */
  predicate LastServed(states: seq<State>, steps: seq<Step>, specOf: (string, nat) -> ConnectionSpec, name: string,
      j: nat, k: nat)
    requires IsRun(states, steps, specOf) && j < k <= |steps|
  {
    Served(states, steps, specOf, j, name) && forall m :: j < m < k ==> !Served(states, steps, specOf, m, name)
  }

  predicate SameView(a: View, b: View) {
    a.uid == b.uid && a.generation == b.generation && a.observed == b.observed
  }

  lemma {:induction false} LastIsCached(states: seq<State>, steps: seq<Step>, specOf: (string, nat) -> ConnectionSpec,
      name: string, j: nat, k: nat)
    requires IsRun(states, steps, specOf) && j < k <= |steps| && LastServed(states, steps, specOf, name, j, k)
    ensures var view := steps[j].view;
            && name in states[k].clients
            && states[k].clients[name].tag == Tag(view.uid, view.generation, view.observed)
            && Some(states[k].clients[name].client) == Answer(states[j], view, steps[j].works)
  {
    assert states[(k - 1) + 1] == After(states[k - 1], steps[k - 1]);
    if j < k - 1 {
      LastIsCached(states, steps, specOf, name, j, k - 1);
      assert !Served(states, steps, specOf, k - 1, name);
    }
  }

  lemma {:induction false} CachedIsLast(states: seq<State>, steps: seq<Step>, specOf: (string, nat) -> ConnectionSpec,
      name: string, k: nat) returns (j: nat)
    requires IsRun(states, steps, specOf) && k <= |steps| && name in states[k].clients
    ensures j < k && LastServed(states, steps, specOf, name, j, k)
  {
    assert k > 0 ==> states[(k - 1) + 1] == After(states[k - 1], steps[k - 1]);
    if Served(states, steps, specOf, k - 1, name) {
      j := k - 1;
    } else {
      j := CachedIsLast(states, steps, specOf, name, k - 1);
    }
  }

  /**
   In every run, whoever asks gets again the client that the name's last answered caller got, if the views
   agree, even when the Secret is gone or cannot be read. Anyone else gets a client of the Secret as it is, and
   gets one exactly when the read works and there is a token.
   */
  lemma ServedIff(states: seq<State>, steps: seq<Step>, specOf: (string, nat) -> ConnectionSpec, k: nat)
    requires IsRun(states, steps, specOf) && k < |steps| && steps[k].Ask?
    ensures var view, works := steps[k].view, steps[k].works;
            var now := states[k].history[|states[k].history| - 1];
            var answer := Answer(states[k], view, works);
            && (forall j :: 0 <= j < k && LastServed(states, steps, specOf, view.name, j, k)
                            && SameView(steps[j].view, view) ==>
                              answer == Answer(states[j], steps[j].view, steps[j].works))
            && ((forall j :: 0 <= j < k && LastServed(states, steps, specOf, view.name, j, k) ==>
                               !SameView(steps[j].view, view)) ==>
                  && (answer.Some? <==> works && HasToken(view.spec, now))
                  && (answer.Some? ==> Serves(answer.value, view.spec, now)))
  {
    var s, view := states[k], steps[k].view;
    forall j | 0 <= j < k && LastServed(states, steps, specOf, view.name, j, k)
      ensures view.name in s.clients && (Hit(s.clients, view) <==> SameView(steps[j].view, view))
      ensures Some(s.clients[view.name].client) == Answer(states[j], steps[j].view, steps[j].works)
    {
      LastIsCached(states, steps, specOf, view.name, j, k);
      var last := steps[j].view;
      if Hit(s.clients, view) {
        TagInjective(view.uid, view.generation, view.observed, last.uid, last.generation, last.observed);
      }
    }
    if view.name in s.clients {
      var j := CachedIsLast(states, steps, specOf, view.name, k);
    }
    BuildIff(view.spec, s.history[|s.history| - 1]);
  }

  // --- The cache itself ---

  class Cache {
    var clients: map<string, Cached>

    constructor ()
      ensures clients == map[]
    {
      clients := map[];
    }

    /** secrets is what the API server holds when the Secret is read, in a run that has come to state s. */
    method ClientFor(view: View, secrets: Snapshot, works: bool, ghost s: State) returns (answer: Option<Client>)
      requires s.clients == clients && s.history != [] && s.history[|s.history| - 1] == secrets
      modifies this
      ensures answer == Answer(s, view, works)
      ensures clients == After(s, Ask(view, works)).clients
      ensures answer.None? ==> clients == old(clients)
      ensures forall n :: n != view.name && n in old(clients) ==> n in clients && clients[n] == old(clients)[n]
      ensures Hit(old(clients), view) ==> answer == Some(old(clients)[view.name].client)
      ensures !Hit(old(clients), view) ==> (answer.Some? <==> works && HasToken(view.spec, secrets))
      ensures !Hit(old(clients), view) && answer.Some? ==> Serves(answer.value, view.spec, secrets)
    {
      var tag := view.uid + "/" + Dec(view.generation) + "/" + view.observed;
      assert tag == Tag(view.uid, view.generation, view.observed);
      if view.name in clients && clients[view.name].tag == tag {
        assert clients == clients[view.name := Cached(tag, clients[view.name].client)];
        return Some(clients[view.name].client);
      }
      answer := NewClient(view.spec, secrets, works);
      if answer.None? {
        return;
      }
      clients := clients[view.name := Cached(tag, answer.value)];
    }

    /** works: the read of the Secret gets through, and the SDK takes what it is given. */
    method NewClient(spec: ConnectionSpec, secrets: Snapshot, works: bool) returns (client: Option<Client>)
      ensures client == if works then Build(spec, secrets) else None
      ensures client.Some? <==>
              && works && spec.secret in secrets && spec.key in secrets[spec.secret].data
              && exists i :: 0 <= i < |secrets[spec.secret].data[spec.key]|
                             && !IsSpace(secrets[spec.secret].data[spec.key][i])
      ensures client.Some? ==>
                && client.value.host == spec.host && client.value.insecure == spec.insecure
                && client.value.token == TrimSpace(secrets[spec.secret].data[spec.key])
    {
      if !works || spec.secret !in secrets {
        return None;
      }
      var data := secrets[spec.secret].data;
      var token := TrimSpace(if spec.key in data then data[spec.key] else "");
      if token == "" {
        return None;
      }
      client := Some(Client(spec.host, token, spec.insecure));
    }
  }
}
