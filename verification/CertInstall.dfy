/**
 Certificate installation: renewers of one state directory, each of which may die at any step, take the
 lock of the name they renew, load or make a key, have it certified, and install key and chain.
 */
module CertInstall {
  import opened Shared

  // ---- the name a certificate is filed under ----

  function Lowered(s: string): (t: string)
    ensures |t| == |s| && forall i | 0 <= i < |s| :: t[i] == Lower(s[i])
  {
    if s == [] then [] else [Lower(s[0])] + Lowered(s[1..])
  }

  /** rtrim of dots. */
  function Trimmed(s: string): (t: string)
    ensures t <= s && (t != [] ==> t[|t| - 1] != '.')
  {
    if s != [] && s[|s| - 1] == '.' then Trimmed(s[..|s| - 1]) else s
  }

  function Dots(n: nat): string { seq(n, _ => '.') }

  /** Only dots are cut off, and all of them. */
  lemma {:induction false} TrimmedIs(s: string, n: nat)
    requires s == [] || s[|s| - 1] != '.'
    ensures Trimmed(s + Dots(n)) == s
    decreases n
  {
    if n == 0 {
      assert s + Dots(n) == s;
    } else {
      var t := s + Dots(n);
      assert t[..|t| - 1] == s + Dots(n - 1);
      TrimmedIs(s, n - 1);
    }
  }

  /** So a name in lower case without a dot behind it is filed under itself, however many dots follow it in
      whatever case it is configured, if it is usable at all. */
  lemma CanonicalOf(s: string, n: nat)
    requires s == [] || s[|s| - 1] != '.'
    ensures Canonical(s + Dots(n)) == if NameOk(Lowered(s)) then Some(Lowered(s)) else None
  {
    TrimmedIs(s, n);
    CanonicalIs(s + Dots(n));
  }

  /** explode at the dots. */
  function Labels(s: string): (ls: seq<string>)
    ensures |ls| > 0
    decreases |s|
  {
    if s == [] then [[]]
    else
      var rest := Labels(s[1..]);
      if s[0] == '.' then [[]] + rest else [[s[0]] + rest[0]] + rest[1..]
  }

  /** implode with dots. */
  function Joined(ls: seq<string>): string
    requires |ls| > 0
  {
    if |ls| == 1 then ls[0] else ls[0] + ['.'] + Joined(ls[1..])
  }

  lemma {:induction false} JoinedLabels(s: string)
    ensures Joined(Labels(s)) == s
    decreases |s|
  {
    if s != [] {
      var rest := Labels(s[1..]);
      JoinedLabels(s[1..]);
      if s[0] == '.' {
        assert ([[]] + rest)[1..] == rest;
        assert s == [s[0]] + s[1..];
      } else {
        assert ([[s[0]] + rest[0]] + rest[1..])[1..] == rest[1..];
        assert s == [s[0]] + s[1..];
        if |rest| > 1 {
          var tail := Joined(rest[1..]);
          assert [s[0]] + (rest[0] + ['.'] + tail) == [s[0]] + rest[0] + ['.'] + tail;
        }
      }
    }
  }

  lemma {:induction false} LabelFirst(l: string, t: string)
    requires '.' !in l
    ensures Labels(l + "." + t) == [l] + Labels(t) && Labels(l) == [l]
    decreases |l|
  {
    if l == [] {
      assert l + "." + t == "." + t && ("." + t)[1..] == t;
    } else {
      LabelFirst(l[1..], t);
      assert (l + "." + t)[1..] == l[1..] + "." + t;
      assert l == [l[0]] + l[1..];
      assert ([l[1..]] + Labels(t))[1..] == Labels(t);
    }
  }

  /** Labels without dots that are put together come apart again. */
  lemma {:induction false} LabelsJoined(ls: seq<string>)
    requires |ls| > 0 && forall i | 0 <= i < |ls| :: '.' !in ls[i]
    ensures Labels(Joined(ls)) == ls
    decreases |ls|
  {
    if |ls| == 1 {
      LabelFirst(ls[0], []);
      assert ls == [ls[0]];
    } else {
      var rest := ls[1..];
      LabelsJoined(rest);
      LabelFirst(ls[0], Joined(rest));
      assert Joined(ls) == ls[0] + "." + Joined(rest);
      assert ls == [ls[0]] + rest;
    }
  }

  predicate Alnum(c: char) { 'a' <= c <= 'z' || '0' <= c <= '9' }

  predicate LabelOk(l: string) {
    && 1 <= |l| <= 63 && Alnum(l[0]) && Alnum(l[|l| - 1])
    && forall i | 0 <= i < |l| :: Alnum(l[i]) || l[i] == '-'
  }

  predicate NameOk(name: string) {
    var ls := Labels(name);
    name != [] && forall i | 0 <= i < |ls| :: LabelOk(ls[i]) || (i == 0 && ls[0] == "*" && |ls| > 1)
  }

  /** None for what is not a usable domain name. */
  function Canonical(domain: string): Option<string> {
    var name := Lowered(Trimmed(domain));
    if NameOk(name) then Some(Joined(Labels(name))) else None
  }

  lemma CanonicalIs(domain: string)
    ensures Canonical(domain) == if NameOk(Lowered(Trimmed(domain))) then Some(Lowered(Trimmed(domain))) else None
  {
    JoinedLabels(Lowered(Trimmed(domain)));
  }

  /** A canonical name is its own canonical name. */
  lemma CanonicalTwice(domain: string)
    requires Canonical(domain).Some?
    ensures Canonical(Canonical(domain).value) == Canonical(domain)
  {
    CanonicalIs(domain);
    CanonicalIs(Lowered(Trimmed(domain)));
    Normal(Trimmed(domain));
  }

  /** A text without a trailing dot, in lower case, is left as it is. */
  lemma Normal(t: string)
    requires t == [] || t[|t| - 1] != '.'
    ensures Lowered(Trimmed(Lowered(t))) == Lowered(t)
  {
    var name := Lowered(t);
    assert Trimmed(name) == name;
    assert Lowered(name) == name;
  }

  /** Two usable spellings are filed under one name exactly when they differ only in case and trailing dots. */
  lemma OneNameIff(a: string, b: string)
    requires Canonical(a).Some? && Canonical(b).Some?
    ensures Canonical(a) == Canonical(b) <==> Lowered(Trimmed(a)) == Lowered(Trimmed(b))
  {
    CanonicalIs(a);
    CanonicalIs(b);
  }

  lemma LabelNoDot(l: string)
    requires LabelOk(l) || l == "*"
    ensures '.' !in l
  {
  }

  /** Letters, digits and inner hyphens, at most 63 of them. */
  lemma PlainLabel(l: string)
    requires 1 <= |l| <= 63 && (forall c | c in l :: 'a' <= c <= 'z' || '0' <= c <= '9' || c == '-')
    requires l[0] != '-' && l[|l| - 1] != '-'
    ensures LabelOk(l)
  {
    forall i | 0 <= i < |l| ensures Alnum(l[i]) || l[i] == '-' { assert l[i] in l; }
  }

  /** A name is usable if and only if its labels are; the first of several may be a star. */
  lemma UsableIff(ls: seq<string>)
    requires |ls| > 0 && forall i | 0 <= i < |ls| :: '.' !in ls[i]
    ensures NameOk(Joined(ls)) <==>
      forall i | 0 <= i < |ls| :: LabelOk(ls[i]) || (i == 0 && ls[0] == "*" && |ls| > 1)
  {
    LabelsJoined(ls);
    if Joined(ls) == [] {
      assert Labels([]) == [[]];
      assert !LabelOk(ls[0]);
    }
  }

  /** No label has a character that could leave the directory. */
  lemma {:induction false} LabelChars(s: string, c: char)
    requires c in s && c != '.'
    ensures exists i, j :: 0 <= i < |Labels(s)| && 0 <= j < |Labels(s)[i]| && Labels(s)[i][j] == c
    decreases |s|
  {
    var rest := Labels(s[1..]);
    if s[0] == c {
      assert Labels(s)[0][0] == c;
    } else {
      assert s == [s[0]] + s[1..];
      LabelChars(s[1..], c);
      var i, j :| 0 <= i < |rest| && 0 <= j < |rest[i]| && rest[i][j] == c;
      if s[0] == '.' {
        assert Labels(s)[i + 1] == rest[i];
      } else if i == 0 {
        assert Labels(s)[0][j + 1] == c;
      } else {
        assert Labels(s)[i] == rest[i];
      }
    }
  }

  /** A canonical name is one path component below the state directory. */
  lemma OneComponent(domain: string)
    requires Canonical(domain).Some?
    ensures var n := Canonical(domain).value; n != [] && '/' !in n && n[0] != '.'
  {
    CanonicalIs(domain);
    var n := Canonical(domain).value;
    FirstEmpty(n);
    forall i, j | 0 <= i < |Labels(n)| && 0 <= j < |Labels(n)[i]| ensures Labels(n)[i][j] != '/' {}
    if '/' in n { LabelChars(n, '/'); }
  }

  lemma FirstEmpty(s: string)
    requires s != []
    ensures s[0] == '.' <==> Labels(s)[0] == []
  {
  }

  // ---- the renewers ----

  type Name = string
  type Key = nat
  type Proc = nat

  /** What is installed for a name: a key, and a chain that certifies some key. */
  datatype Dir = Dir(key: Option<Key>, chain: Option<Key>)

  const EMPTY := Dir(None, None)

  /** Where a renewer is; behind the lock it knows its key, whether that key is new, and then which key
      the chain it was given certifies. */
  datatype Phase =
    | Idle
    | Asking(name: Name)
    | Locked(name: Name)
    | Keyed(name: Name, key: Key, isNew: bool)
    | Certified(name: Name, key: Key, isNew: bool, chain: Key)
    | KeyStored(name: Name, key: Key, chain: Key)

  /** `made` counts the keys generated so far. */
  datatype World = World(dirs: map<Name, Dir>, locks: map<Name, Proc>, procs: seq<Phase>, made: nat)

  function DirOf(w: World, n: Name): Dir { if n in w.dirs then w.dirs[n] else EMPTY }

  datatype Action =
    | Begin(p: Proc, domain: string)   // a tick for a configured spelling
    | Take(p: Proc)                    // flock, without waiting
    | Load(p: Proc)                    // the installed key, or a new one in memory
    | Certify(p: Proc)                 // the order was ready: the CA issues a chain for the key of the CSR
    | Download(p: Proc, certifies: Key) // the order was valid already: no CSR, the chain is what it is
    | StoreKey(p: Proc)                // rename of a new key
    | StoreChain(p: Proc)              // rename of the chain, then the lock is dropped
    | Quit(p: Proc)                    // an error, or death: the lock goes with the process

  predicate Enabled(w: World, a: Action) {
    a.p < |w.procs| &&
      var ph := w.procs[a.p];
      match a
      case Begin(_, domain) => ph.Idle? && Canonical(domain).Some?
      case Take(_) => ph.Asking?
      case Load(_) => ph.Locked?
      case Certify(_) => ph.Keyed?
      case Download(_, _) => ph.Keyed?
      case StoreKey(_) => ph.Certified? && ph.isNew
      case StoreChain(_) => ph.KeyStored? || (ph.Certified? && !ph.isNew)
      case Quit(_) => true
  }

  function Unlocked(locks: map<Name, Proc>, p: Proc): map<Name, Proc> {
    map n | n in locks && locks[n] != p :: locks[n]
  }

  function Perform(w: World, a: Action): World
    requires Enabled(w, a)
  {
    var ph := w.procs[a.p];
    match a
    case Begin(p, domain) => w.(procs := w.procs[p := Asking(Canonical(domain).value)])
    case Take(p) =>
      if ph.name in w.locks then w.(procs := w.procs[p := Idle])
      else w.(procs := w.procs[p := Locked(ph.name)], locks := w.locks[ph.name := p])
    case Load(p) =>
      var d := DirOf(w, ph.name);
      if d.key.Some? then w.(procs := w.procs[p := Keyed(ph.name, d.key.value, false)])
      else w.(procs := w.procs[p := Keyed(ph.name, w.made, true)], made := w.made + 1)
    case Certify(p) => w.(procs := w.procs[p := Certified(ph.name, ph.key, ph.isNew, ph.key)])
    case Download(p, k) => w.(procs := w.procs[p := Certified(ph.name, ph.key, ph.isNew, k)])
    case StoreKey(p) =>
      w.(procs := w.procs[p := KeyStored(ph.name, ph.key, ph.chain)],
         dirs := w.dirs[ph.name := DirOf(w, ph.name).(key := Some(ph.key))])
    case StoreChain(p) =>
      w.(procs := w.procs[p := Idle], locks := Unlocked(w.locks, p),
         dirs := w.dirs[ph.name := DirOf(w, ph.name).(chain := Some(ph.chain))])
    case Quit(p) => w.(procs := w.procs[p := Idle], locks := Unlocked(w.locks, p))
  }

  /** An action that is not enabled does nothing. */
  function Next(w: World, a: Action): World { if Enabled(w, a) then Perform(w, a) else w }

  function Exec(w: World, acts: seq<Action>): World
    decreases |acts|
  {
    if acts == [] then w else Exec(Next(w, acts[0]), acts[1..])
  }

  // ---- locks, and what their holders know ----

  predicate Holds(ph: Phase) { !ph.Idle? && !ph.Asking? }

  /** The holder of a lock knows which key is installed under it. */
  predicate Knows(ph: Phase, d: Dir) {
    match ph
    case Keyed(_, k, isNew) => if isNew then d.key.None? else d.key == Some(k)
    case Certified(_, k, isNew, _) => if isNew then d.key.None? else d.key == Some(k)
    case KeyStored(_, k, _) => d.key == Some(k)
    case _ => true
  }

  /** Every holder has its lock and knows its directory, every lock has its holder, and no chain is
      installed before a key. */
  predicate Sane(w: World) {
    && (forall n: Name | n in w.dirs :: w.dirs[n].chain.Some? ==> w.dirs[n].key.Some?)
    && (forall p | 0 <= p < |w.procs| && Holds(w.procs[p]) ::
          w.procs[p].name in w.locks && w.locks[w.procs[p].name] == p && Knows(w.procs[p], DirOf(w, w.procs[p].name)))
    && (forall n: Name | n in w.locks ::
          w.locks[n] < |w.procs| && Holds(w.procs[w.locks[n]]) && w.procs[w.locks[n]].name == n)
  }

  lemma BeginStep(w: World, a: Action)
    requires Sane(w) && Enabled(w, a) && a.Begin?
    ensures Sane(Perform(w, a))
  {
  }

  lemma TakeStep(w: World, a: Action)
    requires Sane(w) && Enabled(w, a) && a.Take?
    ensures Sane(Perform(w, a))
  {
  }

  /** A holder goes on: it keeps its lock and still knows its directory. */
  lemma HolderStep(w: World, p: Proc, ph: Phase)
    requires Sane(w) && p < |w.procs| && Holds(w.procs[p]) && Holds(ph) && ph.name == w.procs[p].name
    requires Knows(ph, DirOf(w, ph.name))
    ensures Sane(w.(procs := w.procs[p := ph]))
  {
  }

  lemma QuitStep(w: World, p: Proc)
    requires Sane(w) && p < |w.procs|
    ensures Sane(w.(procs := w.procs[p := Idle], locks := Unlocked(w.locks, p)))
  {
  }

  /** A holder writes its directory, and another holder has another one. */
  lemma StoreStep(w: World, p: Proc, ph: Phase, d: Dir)
    requires Sane(w) && p < |w.procs| && Holds(w.procs[p]) && Holds(ph) && ph.name == w.procs[p].name
    requires Knows(ph, d) && (d.chain.Some? ==> d.key.Some?)
    ensures Sane(w.(procs := w.procs[p := ph], dirs := w.dirs[ph.name := d]))
  {
    forall q | 0 <= q < |w.procs| && q != p && Holds(w.procs[q]) ensures w.procs[q].name != ph.name {}
  }

  lemma StepSane(w: World, a: Action)
    requires Sane(w) && Enabled(w, a)
    ensures Sane(Perform(w, a))
  {
    var ph := w.procs[a.p];
    match a
    case Begin(_, _) => BeginStep(w, a);
    case Take(_) => TakeStep(w, a);
    case Load(p) => LoadStep(w, p);
    case Certify(p) => HolderStep(w, p, Certified(ph.name, ph.key, ph.isNew, ph.key));
    case Download(p, k) => HolderStep(w, p, Certified(ph.name, ph.key, ph.isNew, k));
    case StoreKey(p) =>
      StoreStep(w, p, KeyStored(ph.name, ph.key, ph.chain), DirOf(w, ph.name).(key := Some(ph.key)));
    case StoreChain(p) =>
      var d := DirOf(w, ph.name).(chain := Some(ph.chain));
      StoreStep(w, p, ph, d);
      assert w.procs[p := ph] == w.procs;
      QuitStep(w.(dirs := w.dirs[ph.name := d]), p);
    case Quit(p) => QuitStep(w, p);
  }

  lemma LoadStep(w: World, p: Proc)
    requires Sane(w) && Enabled(w, Load(p))
    ensures Sane(Perform(w, Load(p)))
  {
    var n := w.procs[p].name;
    var k := DirOf(w, n).key;
    var ph := if k.Some? then Keyed(n, k.value, false) else Keyed(n, w.made, true);
    HolderStep(w, p, ph);
    MadeAside(w.(procs := w.procs[p := ph]), Perform(w, Load(p)).made);
  }

  lemma MadeAside(w: World, made: nat)
    requires Sane(w)
    ensures Sane(w.(made := made))
  {
  }

  lemma {:induction false} RunSane(w: World, acts: seq<Action>)
    requires Sane(w)
    ensures Sane(Exec(w, acts))
    decreases |acts|
  {
    if acts != [] {
      if Enabled(w, acts[0]) { StepSane(w, acts[0]); }
      RunSane(Next(w, acts[0]), acts[1..]);
    }
  }

  // ---- does the installed chain have its key beside it? ----

  /** An installed chain has an installed key, the one it certifies. */
  predicate Matching(d: Dir) { d.chain.Some? ==> d.key == d.chain }

  /** A directory tree whose chains match their keys, and no renewer at work. */
  predicate Start(w: World) {
    && (forall n: Name | n in w.dirs :: Matching(w.dirs[n]))
    && w.locks == map[] && forall p | 0 <= p < |w.procs| :: w.procs[p].Idle?
  }

  /** This step installs a chain for n. */
  predicate Stores(w: World, a: Action, n: Name) { Enabled(w, a) && a.StoreChain? && w.procs[a.p].name == n }

  /** The chain that was last installed for n was given for the key its renewer held; `fits` speaks for
      what was there before. */
  predicate LastFits(w: World, acts: seq<Action>, n: Name, fits: bool)
    decreases |acts|
  {
    if acts == [] then fits
    else
      var now := if Stores(w, acts[0], n) then w.procs[acts[0].p].chain == w.procs[acts[0].p].key else fits;
      LastFits(Next(w, acts[0]), acts[1..], n, now)
  }

  lemma StepMatching(w: World, a: Action, n: Name)
    requires Sane(w) && Enabled(w, a)
    ensures Matching(DirOf(Perform(w, a), n)) <==>
      if Stores(w, a, n) then w.procs[a.p].chain == w.procs[a.p].key else Matching(DirOf(w, n))
  {
    if a.StoreKey? || a.StoreChain? { assert Knows(w.procs[a.p], DirOf(w, w.procs[a.p].name)); }
  }

  /** Whatever the renewers do and wherever they die: key and chain of a name match exactly when the chain
      last installed was given for the key of the renewer that installed it. */
  lemma {:induction false} MatchingIff(w: World, acts: seq<Action>, n: Name)
    requires Sane(w)
    ensures Matching(DirOf(Exec(w, acts), n)) <==> LastFits(w, acts, n, Matching(DirOf(w, n)))
    decreases |acts|
  {
    if acts != [] {
      if Enabled(w, acts[0]) {
        StepSane(w, acts[0]);
        StepMatching(w, acts[0], n);
      }
      MatchingIff(Next(w, acts[0]), acts[1..], n);
    }
  }

  /** Every order found valid already serves a chain for the key its renewer holds. */
  predicate Own(w: World, acts: seq<Action>)
    decreases |acts|
  {
    acts == [] || (
      && (Enabled(w, acts[0]) && acts[0].Download? ==> acts[0].certifies == w.procs[acts[0].p].key)
      && Own(Next(w, acts[0]), acts[1..]))
  }

  /** What a renewer is about to install was given for its key. */
  predicate Given(w: World) {
    forall p | 0 <= p < |w.procs| ::
      w.procs[p].Certified? || w.procs[p].KeyStored? ==> w.procs[p].chain == w.procs[p].key
  }

  lemma {:induction false} OwnFits(w: World, acts: seq<Action>, n: Name, fits: bool)
    requires Given(w) && Own(w, acts) && fits
    ensures LastFits(w, acts, n, fits)
    decreases |acts|
  {
    if acts != [] {
      OwnFits(Next(w, acts[0]), acts[1..], n, true);
    }
  }

  /** As long as no order serves a chain for another key, an installed chain has its key beside it. */
  lemma ChainHasItsKey(w: World, acts: seq<Action>, n: Name)
    requires Start(w) && Own(w, acts)
    ensures Matching(DirOf(Exec(w, acts), n))
    ensures DirOf(w, n).key.Some? ==> DirOf(Exec(w, acts), n).key == DirOf(w, n).key
  {
    MatchingIff(w, acts, n);
    OwnFits(w, acts, n, true);
    KeyStays(w, acts, n);
  }

  /** A first renewal whose order the CA calls valid at once. */
  function AlreadyValid(domain: string, k: Key): seq<Action> {
    [Begin(0, domain), Take(0), Load(0), Download(0, k), StoreKey(0), StoreChain(0)]
  }

  /** It installs a key it has just made beside a chain for another. */
  lemma ForeignChain(domain: string, k: Key)
    requires Canonical(domain).Some? && k != 0
    ensures var w := World(map[], map[], [Idle], 0);
      Start(w) && !Matching(DirOf(Exec(w, AlreadyValid(domain, k)), Canonical(domain).value))
  {
    var n := Canonical(domain).value;
    var acts := AlreadyValid(domain, k);
    var w0 := World(map[], map[], [Idle], 0);
    var w3 := World(map[], map[n := 0], [Keyed(n, 0, true)], 1);
    assert Exec(w0, acts) == Exec(w3, acts[3..]) by {
      Three(w0, acts);
      assert Next(Next(Next(w0, acts[0]), acts[1]), acts[2]) == w3;
    }
    Three(w3, acts[3..]);
    assert acts[3..][3..] == [];
  }

  lemma Three(w: World, acts: seq<Action>)
    requires |acts| >= 3
    ensures Exec(w, acts) == Exec(Next(Next(Next(w, acts[0]), acts[1]), acts[2]), acts[3..])
  {
    assert acts[1..][1..] == acts[2..] && acts[2..][1..] == acts[3..];
    assert Exec(w, acts) == Exec(Next(w, acts[0]), acts[1..]);
    assert Exec(Next(w, acts[0]), acts[1..]) == Exec(Next(Next(w, acts[0]), acts[1]), acts[2..]);
  }

  // ---- a renewal that is left alone ----

  /** The steps of a renewal; the key is stored only if it is new. */
  function Renewal(p: Proc, domain: string): seq<Action> {
    [Begin(p, domain), Take(p), Load(p), Certify(p), StoreKey(p), StoreChain(p)]
  }

  /** Nobody else at work on the name: the renewal ends with a chain for the installed key, the old key if
      there was one, and the lock is free again. */
  lemma RenewalInstalls(w: World, p: Proc, domain: string)
    requires Sane(w) && p < |w.procs| && w.procs[p].Idle? && Canonical(domain).Some?
    requires Canonical(domain).value !in w.locks
    ensures var n, v := Canonical(domain).value, Exec(w, Renewal(p, domain));
      && DirOf(v, n).chain.Some? && DirOf(v, n).key == DirOf(v, n).chain
      && DirOf(v, n).key == (if DirOf(w, n).key.Some? then DirOf(w, n).key else Some(w.made))
      && n !in v.locks && v.procs == w.procs
  {
    var n, acts := Canonical(domain).value, Renewal(p, domain);
    var key := DirOf(w, n).key;
    var k := if key.Some? then key.value else w.made;
    var mid := Begins(w, p, domain);
    Three(w, acts);
    Three(mid, acts[3..]);
    assert acts[3..][3..] == [];
    Finishes(mid, p, n, k, key.None?);
    assert w.procs[p := Keyed(n, k, key.None?)][p := Idle] == w.procs;
  }

  lemma Begins(w: World, p: Proc, domain: string) returns (v: World)
    requires p < |w.procs| && w.procs[p].Idle? && Canonical(domain).Some? && Canonical(domain).value !in w.locks
    ensures v == Next(Next(Next(w, Begin(p, domain)), Take(p)), Load(p))
    ensures var n, key := Canonical(domain).value, DirOf(w, Canonical(domain).value).key;
      && v.dirs == w.dirs && v.locks == w.locks[n := p]
      && v.procs == w.procs[p := Keyed(n, if key.Some? then key.value else w.made, key.None?)]
  {
    v := Next(Next(Next(w, Begin(p, domain)), Take(p)), Load(p));
  }

  lemma Finishes(w: World, p: Proc, n: Name, k: Key, isNew: bool)
    requires p < |w.procs| && w.procs[p] == Keyed(n, k, isNew) && (!isNew ==> DirOf(w, n).key == Some(k))
    requires n in w.locks && w.locks[n] == p
    ensures var v := Next(Next(Next(w, Certify(p)), StoreKey(p)), StoreChain(p));
      DirOf(v, n) == Dir(Some(k), Some(k)) && n !in v.locks && v.procs == w.procs[p := Idle]
  {
  }

  /** Somebody else at work on the name: the tick ends with nothing changed. */
  lemma RenewalWaits(w: World, p: Proc, domain: string)
    requires p < |w.procs| && w.procs[p].Idle? && Canonical(domain).Some? && Canonical(domain).value in w.locks
    ensures Next(Next(w, Begin(p, domain)), Take(p)) == w
  {
    var u := Next(w, Begin(p, domain));
    assert Next(u, Take(p)).procs == w.procs;
  }

  // ---- installed keys, and one renewer a name ----

  /** An installed key is never replaced, whatever chains arrive. */
  lemma {:induction false} KeyStays(w: World, acts: seq<Action>, n: Name)
    requires Sane(w)
    ensures DirOf(w, n).key.Some? ==> DirOf(Exec(w, acts), n).key == DirOf(w, n).key
    decreases |acts|
  {
    if acts != [] {
      if Enabled(w, acts[0]) {
        StepSane(w, acts[0]);
        StepKeepsKey(w, acts[0], n);
      }
      KeyStays(Next(w, acts[0]), acts[1..], n);
    }
  }

  lemma StepKeepsKey(w: World, a: Action, n: Name)
    requires Sane(w) && Enabled(w, a)
    ensures DirOf(w, n).key.Some? ==> DirOf(Perform(w, a), n).key == DirOf(w, n).key
  {
    if a.StoreKey? { assert Knows(w.procs[a.p], DirOf(w, w.procs[a.p].name)); }
  }

  /** At most one process renews a name, under whatever spellings it was configured. */
  lemma OneRenewer(w: World, acts: seq<Action>, p: Proc, q: Proc)
    requires Start(w) && p < |w.procs| && q < |w.procs|
    ensures |Exec(w, acts).procs| == |w.procs|
    ensures var v := Exec(w, acts);
      Holds(v.procs[p]) && Holds(v.procs[q]) && v.procs[p].name == v.procs[q].name ==> p == q
  {
    RunSane(w, acts);
    SameProcs(w, acts);
  }

  lemma {:induction false} SameProcs(w: World, acts: seq<Action>)
    ensures |Exec(w, acts).procs| == |w.procs|
    decreases |acts|
  {
    if acts != [] { SameProcs(Next(w, acts[0]), acts[1..]); }
  }
}
