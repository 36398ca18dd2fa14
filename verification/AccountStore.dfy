/** One account as a write-back cache of its file (src/bnetd/account.c). */
module AccountStore {
  import opened Text
  import opened Numbers
  import opened Attributes
  import opened AttributeFile

  /** Everything the code keeps about an account; `file` is the account file on disk, None while
      it has never been written. */
  datatype Snapshot = Snapshot(
    attrs: seq<Attr>, loaded: bool, dirty: bool, accessed: bool, age: nat, file: Option<string>)

  datatype Answer = Unavailable | Missing | Found(val: string)

  // ---------------------------------------------------- what each call does

  predicate DynKey(key: string) {
    |key| >= 6 && SameText(key[..6], "DynKey")
  }

  /** Reads of DynKey\... are served from Record\... */
  function Translate(key: string): string {
    if DynKey(key) then "Record" + key[6..] else key
  }

  function Lookup(attrs: seq<Attr>, key: string): Answer {
    var i := FirstMatch(attrs, key);
    if i < |attrs| then Found(attrs[i].val) else Missing
  }

  function Answered(attrs: seq<Attr>, defaults: seq<Attr>, key: string): Answer {
    var own := Lookup(attrs, Translate(key));
    if own.Missing? then Lookup(defaults, Translate(key)) else own
  }

  /** account_load_attrs; `readable` says whether the file can be opened. */
  function Loaded(s: Snapshot, readable: bool): (Snapshot, bool) {
    if s.loaded then (s, true)
    else if s.dirty || !readable || s.file.None? then (s, false)
    else (s.(attrs := LoadLines(Lines(s.file.value), s.attrs), loaded := true, dirty := false), true)
  }

  /** account_get_strattr. */
  function Get(s: Snapshot, defaults: seq<Attr>, key: string, readable: bool): (Snapshot, Answer) {
    var (t, ok) := Loaded(s.(accessed := true), readable);
    (t, if ok then Answered(t.attrs, defaults, key) else Unavailable)
  }

  /** account_set_strattr; a missing value deletes the key. */
  function Set(s: Snapshot, key: string, val: Option<string>, readable: bool): (Snapshot, bool) {
    var (t, ok) := Loaded(s, readable);
    if ok then (t.(dirty := true, attrs := Assign(t.attrs, key, val)), true) else (t, false)
  }

  function Aged(s: Snapshot, delta: nat, flush: nat): nat {
    var age := if s.accessed then s.age / 2 else s.age + delta;
    if age > 3 * flush / 2 then 3 * flush / 2 else age
  }

  /** account_save; `writable` says whether writing and renaming the temporary file succeeds. */
  function Save(s: Snapshot, delta: nat, flush: nat, writable: bool): Snapshot
    requires s.loaded ==> Writable(s.attrs)
  {
    var t := s.(age := Aged(s, delta, flush), accessed := false);
    if !s.loaded then t
    else if !s.dirty then
      if t.age >= flush then t.(attrs := [], loaded := false) else t
    else if writable then t.(dirty := false, file := Some(SaveText(s.attrs)))
    else t
  }

  // ----------------------------------------------------------- the invariant

  predicate Safe(attrs: seq<Attr>) {
    Writable(attrs) && forall a | a in attrs :: FileSafe(a)
  }

  ghost predicate Inv(s: Snapshot) {
    && Distinct(s.attrs) && Safe(s.attrs)
    && (!s.loaded ==> s.attrs == [] && !s.dirty && s.file.Some?)
    && (s.loaded && !s.dirty ==> s.file.Some? && MapOf(LoadText(s.file.value)) == MapOf(s.attrs))
    && (s.file.Some? ==> Safe(LoadText(s.file.value)))
  }

  /** The plain map the account stands for, wherever its contents are at the moment. */
  ghost function View(s: Snapshot): map<string, string> {
    if s.loaded then MapOf(s.attrs) else if s.file.Some? then MapOf(LoadText(s.file.value)) else map[]
  }

  lemma {:induction false} LoadKeepsDistinct(lines: seq<string>, attrs: seq<Attr>)
    requires Distinct(attrs)
    ensures Distinct(LoadLines(lines, attrs))
  {
    hide Fold, Distinct, ReadLine;
    if lines != [] && ReadLine(lines[0]).Some? {
      var a := ReadLine(lines[0]).value;
      AssignKeepsDistinct(attrs, a.key, Some(a.val));
      LoadKeepsDistinct(lines[1..], Assign(attrs, a.key, Some(a.val)));
    } else if lines != [] {
      LoadKeepsDistinct(lines[1..], attrs);
    }
  }

  /** Loading neither changes what the account stands for nor fails while the file is readable. */
  lemma LoadedKeepsView(s: Snapshot, readable: bool)
    requires Inv(s)
    ensures Inv(Loaded(s, readable).0) && View(Loaded(s, readable).0) == View(s)
    ensures Loaded(s, readable).1 == (s.loaded || readable)
    ensures Loaded(s, readable).1 ==> Loaded(s, readable).0.loaded
  {
    if !s.loaded && readable {
      DistinctNone();
      LoadKeepsDistinct(Lines(s.file.value), []);
    }
  }

  lemma LookupIsMapAnswer(attrs: seq<Attr>, defaults: seq<Attr>, key: string)
    ensures Answered(attrs, defaults, key) == MapAnswer(MapOf(attrs), MapOf(defaults), key)
  {
    LookupIsMap(attrs, Translate(key));
    LookupIsMap(defaults, Translate(key));
  }

  /** The answer of two plain maps, the default account being the second. */
  ghost function MapAnswer(m: map<string, string>, defaults: map<string, string>, key: string): Answer {
    var k := Fold(Translate(key));
    if k in m then Found(m[k]) else if k in defaults then Found(defaults[k]) else Missing
  }

  /** A key that begins with DynKey, in whatever case, answers what it does with Record in its place; any other
      answers with its own value, and without one with that of the default account. */
  lemma TranslateLaw(attrs: seq<Attr>, defaults: seq<Attr>, key: string)
    ensures var dyn := |key| >= 6 && Fold(key[..6]) == Fold("DynKey");
            if dyn then Answered(attrs, defaults, key) == Answered(attrs, defaults, "Record" + key[6..])
            else if FirstMatch(attrs, key) < |attrs| then
              Answered(attrs, defaults, key) == Found(attrs[FirstMatch(attrs, key)].val)
            else if FirstMatch(defaults, key) < |defaults| then
              Answered(attrs, defaults, key) == Found(defaults[FirstMatch(defaults, key)].val)
            else Answered(attrs, defaults, key) == Missing
  {
    if DynKey(key) {
      RecordIsRead(key);
    }
    hide Fold, FirstMatch;
  }

  lemma RecordIsRead(key: string)
    requires DynKey(key)
    ensures Translate("Record" + key[6..]) == "Record" + key[6..]
  {
    var record := "Record" + key[6..];
    assert record[..6] == "Record";
    assert Fold("Record")[0] == Lower('R') && Fold("DynKey")[0] == Lower('D');
    hide Fold;
  }

  // -------------------------------------------------------------- whole runs

  datatype Op =
    | SetOp(key: string, val: Option<string>, readable: bool)
    | GetOp(key: string, readable: bool)
    | SweepOp(delta: nat, writable: bool)

  datatype Reply = Done | Refused | Answer(answer: Answer)

  /** A value the file format can hold. */
  predicate SafeOp(op: Op) {
    op.SetOp? && op.val.Some? ==>
      CString(op.key) && CString(op.val.value) && FileSafe(Attr(op.key, op.val.value))
  }

  datatype Config = Config(defaults: seq<Attr>, flush: nat)

  function Step(s: Snapshot, op: Op, cfg: Config): (Snapshot, Reply)
    requires s.loaded ==> Writable(s.attrs)
  {
    match op
    case SetOp(key, val, readable) =>
      var (t, ok) := Set(s, key, val, readable);
      (t, if ok then Done else Refused)
    case GetOp(key, readable) =>
      var (t, a) := Get(s, cfg.defaults, key, readable);
      (t, Reply.Answer(a))
    case SweepOp(delta, writable) => (Save(s, delta, cfg.flush, writable), Done)
  }

  /** What a plain map would have done and said; only an unreadable file excuses a different reply. */
  ghost predicate Agrees(m: map<string, string>, op: Op, reply: Reply, cfg: Config, m': map<string, string>) {
    match op
    case SetOp(key, val, readable) =>
      || (reply == Done && m' == Update(m, key, val))
      || (reply == Refused && !readable && m' == m)
    case GetOp(key, readable) =>
      && m' == m
      && (reply == Reply.Answer(MapAnswer(m, MapOf(cfg.defaults), key))
          || (reply == Reply.Answer(Unavailable) && !readable))
    case SweepOp(_, _) => reply == Done && m' == m
  }

  lemma SetKeepsSafe(attrs: seq<Attr>, key: string, val: Option<string>)
    requires Safe(attrs)
    requires val.Some? ==> CString(key) && CString(val.value) && FileSafe(Attr(key, val.value))
    ensures Safe(Assign(attrs, key, val))
  {
    hide CString;
    var i := FirstMatch(attrs, key);
    if i < |attrs| {
      assert attrs[i] in attrs;
    }
  }

  lemma StepAgrees(s: Snapshot, op: Op, cfg: Config)
    requires Inv(s) && SafeOp(op)
    ensures Inv(Step(s, op, cfg).0)
    ensures Agrees(View(s), op, Step(s, op, cfg).1, cfg, View(Step(s, op, cfg).0))
  {
    hide Fold, Distinct, Safe, Writable, FileSafe, MapOf;
    match op {
      case SetOp(key, val, readable) =>
        LoadedKeepsView(s, readable);
        var t := Loaded(s, readable).0;
        AssignIsUpdate(t.attrs, key, val);
        SetKeepsSafe(t.attrs, key, val);
      case GetOp(key, readable) =>
        LoadedKeepsView(s.(accessed := true), readable);
        LookupIsMapAnswer(Loaded(s.(accessed := true), readable).0.attrs, cfg.defaults, key);
      case SweepOp(delta, writable) =>
        SaveKeepsView(s, delta, cfg.flush, writable);
    }
  }

  lemma SaveKeepsView(s: Snapshot, delta: nat, flush: nat, writable: bool)
    requires Inv(s)
    ensures Inv(Save(s, delta, flush, writable)) && View(Save(s, delta, flush, writable)) == View(s)
  {
    hide Fold, FileSafe;
    if s.loaded && s.dirty && writable {
      SavedFileIsSafe(s.attrs);
    }
    DistinctNone();
  }

  lemma SavedFileIsSafe(attrs: seq<Attr>)
    requires Safe(attrs) && Distinct(attrs)
    ensures Safe(LoadText(SaveText(attrs)))
    ensures MapOf(LoadText(SaveText(attrs))) == MapOf(attrs)
  {
    ReloadLaw(attrs);
  }

  function Run(s: Snapshot, ops: seq<Op>, cfg: Config): (Snapshot, seq<Reply>)
    requires Inv(s) && forall i | 0 <= i < |ops| :: SafeOp(ops[i])
    decreases ops
  {
    if ops == [] then (s, [])
    else
      StepAgrees(s, ops[0], cfg);
      var (t, reply) := Step(s, ops[0], cfg);
      var (u, replies) := Run(t, ops[1..], cfg);
      (u, [reply] + replies)
  }

  lemma InvIsWritable(s: Snapshot)
    requires Inv(s)
    ensures Writable(s.attrs)
  {
  }

  /** The whole run of a plain map: `ms` are its values before each operation and at the end. */
  ghost predicate MapRun(ms: seq<map<string, string>>, ops: seq<Op>, replies: seq<Reply>, cfg: Config) {
    && |ms| == |ops| + 1 && |replies| == |ops|
    && forall i | 0 <= i < |ops| :: Agrees(ms[i], ops[i], replies[i], cfg, ms[i + 1])
  }

  /** Over any interleaving of sets, gets, sweeps and reloads the account answers as a plain map
      does, and it never loses its invariant. */
  lemma {:induction false} CacheRefinesMap(s: Snapshot, ops: seq<Op>, cfg: Config)
      returns (ms: seq<map<string, string>>)
    requires Inv(s) && forall i | 0 <= i < |ops| :: SafeOp(ops[i])
    ensures MapRun(ms, ops, Run(s, ops, cfg).1, cfg)
    ensures Inv(Run(s, ops, cfg).0)
    ensures ms[0] == View(s) && ms[|ops|] == View(Run(s, ops, cfg).0)
    decreases ops
  {
    hide Inv, View, Step, Agrees;
    if ops == [] {
      ms := [View(s)];
    } else {
      StepAgrees(s, ops[0], cfg);
      assert s.loaded ==> Writable(s.attrs) by {
        InvIsWritable(s);
      }
      var rest := CacheRefinesMap(Step(s, ops[0], cfg).0, ops[1..], cfg);
      ms := [View(s)] + rest;
    }
  }

  // ------------------------------------------------- where the map law ends

  /** A saved and evicted account stands for the same map iff every pair it held was file-safe. */
  lemma EvictionLaw(s: Snapshot, delta: nat, flush: nat)
    requires s.loaded && s.dirty && Distinct(s.attrs) && Writable(s.attrs)
    requires Aged(Save(s, delta, flush, true), delta, flush) >= flush
    ensures var evicted := Save(Save(s, delta, flush, true), delta, flush, true);
            && !evicted.loaded && evicted.file.Some?
            && (MapOf(LoadText(evicted.file.value)) == MapOf(s.attrs)
                <==> forall a | a in s.attrs :: FileSafe(a))
  {
    ReloadLaw(s.attrs);
  }

  /** Reading a key just set gives the new value iff the account is in memory or can be read, and the key is
      not one that is read elsewhere, or happens to have that value there. */
  lemma ReadYourWrite(s: Snapshot, defaults: seq<Attr>, key: string, val: string, readable: bool)
    ensures var (t, ok) := Loaded(s, readable);
            Get(Set(s, key, Some(val), readable).0, defaults, key, readable).1 == Found(val)
            <==> ok && (!DynKey(key) || Answered(t.attrs, defaults, key) == Found(val))
  {
    hide LoadLines, Lines, Assign, Answered, DynKey;
    var (t, ok) := Loaded(s, readable);
    if ok {
      SetKeyAnswers(t.attrs, defaults, key, val);
    }
  }

  lemma SetKeyAnswers(attrs: seq<Attr>, defaults: seq<Attr>, key: string, val: string)
    ensures Answered(Assign(attrs, key, Some(val)), defaults, key) == Found(val)
            <==> !DynKey(key) || Answered(attrs, defaults, key) == Found(val)
  {
    if DynKey(key) {
      TranslatedDiffers(key);
      AssignElsewhere(attrs, key, val, Translate(key));
    } else {
      AssignHere(attrs, key, val);
    }
  }

  lemma TranslatedDiffers(key: string)
    requires DynKey(key)
    ensures !SameText(key, Translate(key))
  {
    assert Fold(key)[0] == Fold(key[..6])[0] == Lower('D');
    assert Fold(Translate(key))[0] == Lower('R');
  }

  lemma AssignHere(attrs: seq<Attr>, key: string, val: string)
    ensures Lookup(Assign(attrs, key, Some(val)), key) == Found(val)
  {
    hide Fold;
    var i := FirstMatch(attrs, key);
    var after := Assign(attrs, key, Some(val));
    if i < |attrs| {
      assert SameText(after[i].key, key);
      assert forall j | 0 <= j < i :: !SameText(after[j].key, key);
      var j := FirstMatch(after, key);
      assert j == i;
    }
  }

  lemma AssignElsewhere(attrs: seq<Attr>, key: string, val: string, other: string)
    requires !SameText(key, other)
    ensures Lookup(Assign(attrs, key, Some(val)), other) == Lookup(attrs, other)
  {
    hide Fold;
    var i := FirstMatch(attrs, key);
    var after := Assign(attrs, key, Some(val));
    if i == |attrs| {
      assert after[1..] == attrs;
    } else {
      var j, k := FirstMatch(attrs, other), FirstMatch(after, other);
      assert forall n | 0 <= n < |attrs| :: SameText(attrs[n].key, other) <==> SameText(after[n].key, other);
    }
  }

  // ---------------------------------------------------------- walking the keys

  /** strcmp: the walk compares keys exactly, case included. */
  function FirstExact(attrs: seq<Attr>, key: string): (i: nat)
    ensures i <= |attrs|
    ensures i < |attrs| ==> attrs[i].key == key
    ensures forall j | 0 <= j < i :: attrs[j].key != key
  {
    if attrs == [] || attrs[0].key == key then 0 else 1 + FirstExact(attrs[1..], key)
  }

  /** account_get_first_key and account_get_next_key. */
  function FirstKey(attrs: seq<Attr>): Option<string> {
    if attrs == [] then None else Some(attrs[0].key)
  }

  function NextKey(attrs: seq<Attr>, key: string): Option<string> {
    var i := FirstExact(attrs, key);
    if i + 1 < |attrs| then Some(attrs[i + 1].key) else None
  }

  /** The key the walk is at after `n` steps. */
  function WalkedTo(attrs: seq<Attr>, n: nat): Option<string> {
    if n == 0 then FirstKey(attrs)
    else
      match WalkedTo(attrs, n - 1)
      case None => None
      case Some(key) => NextKey(attrs, key)
  }

  ghost predicate NoRepeatedKey(attrs: seq<Attr>) {
    forall i, j | 0 <= i < j < |attrs| :: attrs[i].key != attrs[j].key
  }

  lemma {:induction false} WalkInOrder(attrs: seq<Attr>, n: nat)
    requires NoRepeatedKey(attrs) && n <= |attrs|
    ensures WalkedTo(attrs, n) == if n < |attrs| then Some(attrs[n].key) else None
  {
    if n > 0 {
      WalkInOrder(attrs, n - 1);
      var i := FirstExact(attrs, attrs[n - 1].key);
      assert i == n - 1;
    }
  }

  lemma {:induction false} WalkIsTrapped(attrs: seq<Attr>, i: nat, j: nat, n: nat) returns (at: nat)
    requires i < j < |attrs| && attrs[i].key == attrs[j].key
    ensures at <= j && WalkedTo(attrs, n) == Some(attrs[at].key)
  {
    if n == 0 {
      at := 0;
    } else {
      var before := WalkIsTrapped(attrs, i, j, n - 1);
      at := FirstExact(attrs, attrs[before].key) + 1;
      assert attrs[FirstExact(attrs, attrs[before].key)].key == attrs[before].key;
      assert before == j ==> FirstExact(attrs, attrs[before].key) <= i;
    }
  }

  /** The walk ends iff no key occurs twice. */
  lemma WalkEndsIff(attrs: seq<Attr>)
    ensures (exists n: nat :: WalkedTo(attrs, n) == None) <==> NoRepeatedKey(attrs)
  {
    if NoRepeatedKey(attrs) {
      WalkInOrder(attrs, |attrs|);
    } else {
      var i, j :| 0 <= i < j < |attrs| && attrs[i].key == attrs[j].key;
      forall n: nat
        ensures WalkedTo(attrs, n) != None
      {
        var at := WalkIsTrapped(attrs, i, j, n);
      }
    }
  }

  // ---------------------------------------------------------- a new account

  const USERNAME := "BNET\\acct\\username"
  const USERID := "BNET\\acct\\userid"
  const PASSHASH := "BNET\\acct\\passhash1"

  function CreatedAttrs(username: string, userid: nat, passhash1: string): seq<Attr> {
    [Attr(PASSHASH, passhash1), Attr(USERID, Decimal(userid)), Attr(USERNAME, username)]
  }

  function NewAccount(username: string, userid: nat, passhash1: string): Snapshot {
    Snapshot(CreatedAttrs(username, userid, passhash1), true, true, false, 0, None)
  }

  lemma ThreeKeys()
    ensures !SameText(USERNAME, USERID) && !SameText(USERNAME, PASSHASH) && !SameText(USERID, PASSHASH)
    ensures CString(USERNAME) && CString(USERID) && CString(PASSHASH)
    ensures QuoteFree(USERNAME) && QuoteFree(USERID) && QuoteFree(PASSHASH)
  {
    assert |USERNAME| == 18 && |USERID| == 16 && |PASSHASH| == 19;
    assert |Fold(USERNAME)| == 18 && |Fold(USERID)| == 16 && |Fold(PASSHASH)| == 19;
  }

  lemma CreatedOneByOne(username: string, userid: nat, passhash1: string)
    ensures var one := Assign([], USERNAME, Some(username));
            var two := Assign(one, USERID, Some(Decimal(userid)));
            Assign(two, PASSHASH, Some(passhash1)) == CreatedAttrs(username, userid, passhash1)
  {
    ThreeKeys();
    hide SameText, Decimal;
  }

  /** What a new account answers to. */
  lemma CreatedAnswers(username: string, userid: nat, passhash1: string)
    ensures var attrs := NewAccount(username, userid, passhash1).attrs;
            && Lookup(attrs, "BNET\\acct\\username") == Found(username)
            && Lookup(attrs, "BNET\\acct\\userid") == Found(Decimal(userid))
            && Lookup(attrs, "BNET\\acct\\passhash1") == Found(passhash1)
  {
    ThreeKeys();
    var attrs := CreatedAttrs(username, userid, passhash1);
    hide Fold, Decimal;
    assert attrs[0].key == PASSHASH && attrs[1].key == USERID && attrs[2].key == USERNAME;
    assert FirstMatch(attrs, PASSHASH) == 0 && FirstMatch(attrs, USERID) == 1;
    var i := FirstMatch(attrs, USERNAME);
    assert i == 2;
  }

  lemma {:induction false} DigitsArePlain(s: string)
    requires AllDigits(s)
    ensures CString(s) && QuoteFree(s)
  {
  }

  lemma CreatedInv(username: string, userid: nat, passhash1: string)
    requires CString(username) && CString(passhash1)
    ensures var s := NewAccount(username, userid, passhash1);
            && Distinct(s.attrs) && Writable(s.attrs)
            && ((forall a | a in s.attrs :: FileSafe(a)) <==> QuoteFree(username) && QuoteFree(passhash1))
            && (Inv(s) <==> QuoteFree(username) && QuoteFree(passhash1))
  {
    ThreeKeys();
    DigitsArePlain(Decimal(userid));
    hide SameText, Decimal, QuoteFree, CString;
    var attrs := CreatedAttrs(username, userid, passhash1);
    assert attrs[0] in attrs && attrs[2] in attrs;
  }

  /** A new account outlives its first save and eviction iff its name and password hash hold no double quote;
      account_check_name lets a name have one. */
  lemma CreatedSurvives(username: string, userid: nat, passhash1: string, delta: nat, flush: nat)
    requires CString(username) && CString(passhash1)
    requires var s := NewAccount(username, userid, passhash1);
             Aged(s.(age := Aged(s, delta, flush)), delta, flush) >= flush
    ensures var s := NewAccount(username, userid, passhash1);
            Writable(s.attrs) &&
            var evicted := Save(Save(s, delta, flush, true), delta, flush, true);
            !evicted.loaded && (View(evicted) == View(s) <==> QuoteFree(username) && QuoteFree(passhash1))
  {
    CreatedInv(username, userid, passhash1);
    hide Distinct, Writable, CreatedAttrs, FileSafe, QuoteFree;
    var s := NewAccount(username, userid, passhash1);
    EvictionLaw(s, delta, flush);
  }

  // ------------------------------------------------------------- the account

  class Account {
    var attrs: seq<Attr>
    var loaded: bool
    var dirty: bool
    var accessed: bool
    var age: nat
    var file: Option<string>

    ghost function State(): Snapshot
      reads this
    {
      Snapshot(attrs, loaded, dirty, accessed, age, file)
    }

    /** An account read from its file later on, the account_create(NULL, NULL) of account_load. */
    constructor FromFile(text: string)
      ensures State() == Snapshot([], false, false, false, 0, Some(text))
      ensures Inv(State()) <==> Safe(LoadText(text))
    {
      attrs, loaded, dirty, accessed, age, file := [], false, false, false, 0, Some(text);
    }

    /** A new account: loaded, dirty, and without a file until it is saved. */
    constructor Created(username: string, userid: nat, passhash1: string)
      requires CString(username) && CString(passhash1)
      ensures State() == NewAccount(username, userid, passhash1)
      ensures Inv(State()) <==> QuoteFree(username) && QuoteFree(passhash1)
    {
      attrs, loaded, dirty, accessed, age, file := [], true, false, false, 0, None;
      new;
      hide Fold, SaveText, Inv, Distinct, Writable;
      var ok := SetStrAttr(USERNAME, Some(username), true);
      ok := SetStrAttr(USERID, Some(Decimal(userid)), true);
      ok := SetStrAttr(PASSHASH, Some(passhash1), true);
      CreatedOneByOne(username, userid, passhash1);
      CreatedInv(username, userid, passhash1);
    }

    method LoadAttrs(readable: bool) returns (ok: bool)
      modifies this
      ensures (State(), ok) == Loaded(old(State()), readable)
    {
      if loaded {
        return true;
      }
      if dirty || !readable || file.None? {
        return false;
      }
      loaded := true;
      var text, pos := file.value, 0;
      ghost var start := State();
      var line, next := FileGetLine(text, 0);
      assert text[0..] == text;
      while line.Some?
        invariant pos <= next <= |text|
        invariant (line, text[next..]) == NextLine(text[pos..], [], 0 as char)
        invariant LoadLines(Lines(text[pos..]), attrs) == LoadLines(Lines(text), old(attrs))
        invariant loaded && accessed == old(accessed) && age == old(age) && file == old(file)
        decreases |text| - pos
      {
        var entry := ReadLine(line.value);
        assert Lines(text[pos..])[1..] == Lines(text[next..]);
        if entry.Some? {
          Assign1(entry.value.key, Some(entry.value.val));
        }
        assert text[pos..] != [];
        pos := next;
        line, next := FileGetLine(text, pos);
      }
      assert Lines(text[pos..]) == [];
      dirty := false;
      ok := true;
    }

    /** The list surgery of account_set_strattr: head, inner node, or a new node in front. */
    method Assign1(key: string, val: Option<string>)
      modifies this`attrs, this`dirty
      ensures dirty && attrs == Assign(old(attrs), key, val)
    {
      dirty := true;
      if attrs == [] {
        if val.Some? {
          attrs := [Attr(key, val.value)];
        }
        return;
      }
      if SameText(attrs[0].key, key) {
        if val.Some? {
          attrs := [Attr(attrs[0].key, val.value)] + attrs[1..];
        } else {
          attrs := attrs[1..];
        }
        return;
      }
      var curr := 0;
      while curr + 1 < |attrs| && !SameText(attrs[curr + 1].key, key)
        invariant curr < |attrs|
        invariant forall j | 0 <= j <= curr :: !SameText(attrs[j].key, key)
      {
        curr := curr + 1;
      }
      assert FirstMatch(attrs, key) == curr + 1;
      if curr + 1 < |attrs| {
        if val.Some? {
          attrs := attrs[curr + 1 := Attr(attrs[curr + 1].key, val.value)];
        } else {
          attrs := attrs[..curr + 1] + attrs[curr + 2..];
        }
        return;
      }
      if val.Some? {
        attrs := [Attr(key, val.value)] + attrs;
      }
    }

    method GetStrAttr(defaults: seq<Attr>, key: string, readable: bool) returns (answer: Answer)
      modifies this
      ensures (State(), answer) == Get(old(State()), defaults, key, readable)
    {
      accessed := true;
      var ok := LoadAttrs(readable);
      if !ok {
        return Unavailable;
      }
      answer := FindAttr(attrs, Translate(key));
      if answer.Missing? {
        answer := FindAttr(defaults, Translate(key));
      }
    }

    method SetStrAttr(key: string, val: Option<string>, readable: bool) returns (ok: bool)
      modifies this
      ensures (State(), ok) == Set(old(State()), key, val, readable)
    {
      ok := LoadAttrs(readable);
      if ok {
        Assign1(key, val);
      }
    }

    method SaveFile(delta: nat, flush: nat, writable: bool)
      requires loaded ==> Writable(attrs)
      modifies this
      ensures State() == Save(old(State()), delta, flush, writable)
    {
      Grow(delta, flush);
      if !loaded {
        return;
      }
      if !dirty {
        if age >= flush {
          attrs, loaded := [], false;
        }
        return;
      }
      var text := FileText();
      if !writable {
        return;
      }
      file, dirty := Some(text), false;
    }

    method Grow(delta: nat, flush: nat)
      modifies this`age, this`accessed
      ensures age == Aged(old(State()), delta, flush) && !accessed
    {
      if accessed {
        age := age / 2;
      } else {
        age := age + delta;
      }
      if age > 3 * flush / 2 {
        age := 3 * flush / 2;
      }
      accessed := false;
    }

    method FileText() returns (text: string)
      requires Writable(attrs)
      ensures text == SaveText(attrs)
    {
      hide WriteLine, Escape, Skipped, CString;
      text := "";
      for i := 0 to |attrs|
        invariant text + SaveText(attrs[i..]) == SaveText(attrs)
      {
        assert attrs[i..][1..] == attrs[i + 1..];
        var key := EscapeChars(attrs[i].key);
        if !Skipped(key) {
          text := text + (WriteLine(attrs[i]) + "\n");
        }
      }
    }

    /** The loop of send_bits_va_allattr: every attribute in memory once, in list order, as long as each
        of them can be looked up. Nothing is loaded for it. */
    method AllAttrs(defaults: seq<Attr>) returns (pairs: seq<Attr>, ok: bool)
      requires Distinct(attrs) && (!loaded ==> attrs == [])
      modifies this
      ensures State() == old(State()).(accessed := true)
      ensures (pairs, ok) == Upload(old(State()), defaults)
    {
      hide Answered, FirstExact, NextKey, Distinct, Get, UploadFrom;
      accessed := true;
      pairs, ok := [], true;
      var key := FirstKey(attrs);
      UploadEnds(attrs, defaults);
      assert [] + UploadFrom(attrs, defaults, 0).0 == UploadFrom(attrs, defaults, 0).0;
      while key.Some?
        invariant State() == old(State()).(accessed := true)
        invariant |pairs| <= |attrs|
        invariant key == if |pairs| < |attrs| then Some(attrs[|pairs|].key) else None
        invariant Upload(old(State()), defaults).0 == pairs + UploadFrom(attrs, defaults, |pairs|).0
        invariant Upload(old(State()), defaults).1 == UploadFrom(attrs, defaults, |pairs|).1
        decreases |attrs| - |pairs|
      {
        GetWhenLoaded(State(), defaults, key.value);
        NextInOrder(attrs, |pairs|);
        UploadStep(attrs, defaults, |pairs|);
        var val := GetStrAttr(defaults, key.value, true);
        if !val.Found? {
          assert pairs + [] == pairs;
          return pairs, false;
        }
        var pair := Attr(key.value, val.val);
        ghost var rest := UploadFrom(attrs, defaults, |pairs| + 1).0;
        assert pairs + ([pair] + rest) == (pairs + [pair]) + rest;
        pairs := pairs + [pair];
        key := NextKey(attrs, key.value);
      }
      assert pairs + [] == pairs;
    }
  }

  // ------------------------------------------------------- sending it all away

  /** What is sent of an attribute list from place `n` on, and whether the end was reached. */
  function UploadFrom(attrs: seq<Attr>, defaults: seq<Attr>, n: nat): (seq<Attr>, bool)
    requires n <= |attrs|
    decreases |attrs| - n
  {
    if n == |attrs| then ([], true)
    else
      match Answered(attrs, defaults, attrs[n].key)
      case Found(v) =>
        var (rest, ok) := UploadFrom(attrs, defaults, n + 1);
        ([Attr(attrs[n].key, v)] + rest, ok)
      case _ => ([], false)
  }

  /** send_bits_va_allattr: what is in memory, loaded or not. */
  function Upload(s: Snapshot, defaults: seq<Attr>): (seq<Attr>, bool) {
    UploadFrom(s.attrs, defaults, 0)
  }

  /** The receiving end, for a good status: every pair is set on the copy there. */
  function Received(copy: seq<Attr>, pairs: seq<Attr>): seq<Attr>
    decreases pairs
  {
    if pairs == [] then copy else Received(Assign(copy, pairs[0].key, Some(pairs[0].val)), pairs[1..])
  }

  lemma UploadStep(attrs: seq<Attr>, defaults: seq<Attr>, n: nat)
    requires n < |attrs|
    ensures
      var (rest, ok) := UploadFrom(attrs, defaults, n + 1);
      UploadFrom(attrs, defaults, n) ==
        match Answered(attrs, defaults, attrs[n].key)
        case Found(v) => ([Attr(attrs[n].key, v)] + rest, ok)
        case _ => ([], false)
  {
  }

  lemma UploadEnds(attrs: seq<Attr>, defaults: seq<Attr>)
    ensures UploadFrom(attrs, defaults, |attrs|) == ([], true)
  {
  }

  /** A complete upload has the keys of the list, in order, each with the answer a get would give. */
  lemma {:induction false} UploadPairs(attrs: seq<Attr>, defaults: seq<Attr>, n: nat)
    requires n <= |attrs|
    ensures var (pairs, ok) := UploadFrom(attrs, defaults, n);
            && |pairs| <= |attrs| - n && (ok <==> |pairs| == |attrs| - n)
            && (forall i | 0 <= i < |pairs| ::
                  && pairs[i].key == attrs[n + i].key
                  && Answered(attrs, defaults, attrs[n + i].key) == Found(pairs[i].val))
            && (!ok ==> !Answered(attrs, defaults, attrs[n + |pairs|].key).Found?)
    decreases |attrs| - n
  {
    hide Answered;
    if n < |attrs| {
      UploadPairs(attrs, defaults, n + 1);
      var (pairs, ok) := UploadFrom(attrs, defaults, n);
      forall i | 0 <= i < |pairs|
        ensures pairs[i].key == attrs[n + i].key && Answered(attrs, defaults, attrs[n + i].key) == Found(pairs[i].val)
      {
        if i > 0 {
          assert pairs[i] == UploadFrom(attrs, defaults, n + 1).0[i - 1];
        }
      }
    }
  }

  lemma {:induction false} ReceivedIsOverlay(copy: seq<Attr>, pairs: seq<Attr>)
    requires Distinct(copy)
    ensures Distinct(Received(copy, pairs)) && MapOf(Received(copy, pairs)) == Overlay(MapOf(copy), pairs)
    decreases pairs
  {
    hide Distinct, Assign, MapOf;
    if pairs != [] {
      AssignIsUpdate(copy, pairs[0].key, Some(pairs[0].val));
      ReceivedIsOverlay(Assign(copy, pairs[0].key, Some(pairs[0].val)), pairs[1..]);
    }
  }

  /** Each attribute that is read under another key happens to have the value found there. */
  ghost predicate DynKeysEcho(attrs: seq<Attr>, defaults: seq<Attr>) {
    forall a | a in attrs && DynKey(a.key) :: Answered(attrs, defaults, a.key) == Found(a.val)
  }

  /** An attribute whose key is not read elsewhere answers with its own value. */
  lemma OwnValue(attrs: seq<Attr>, defaults: seq<Attr>, i: nat)
    requires Distinct(attrs) && i < |attrs| && !DynKey(attrs[i].key)
    ensures Answered(attrs, defaults, attrs[i].key) == Found(attrs[i].val)
  {
    var j := FirstMatch(attrs, attrs[i].key);
    assert j == i;
  }

  /** A list is sent whole and unchanged iff its DynKey attributes echo what they are read from. */
  lemma UploadIsList(attrs: seq<Attr>, defaults: seq<Attr>)
    requires Distinct(attrs)
    ensures UploadFrom(attrs, defaults, 0) == (attrs, true) <==> DynKeysEcho(attrs, defaults)
  {
    hide Answered, UploadFrom, Distinct, DynKey;
    UploadPairs(attrs, defaults, 0);
    var (pairs, ok) := UploadFrom(attrs, defaults, 0);
    if DynKeysEcho(attrs, defaults) {
      forall i | 0 <= i < |attrs|
        ensures Answered(attrs, defaults, attrs[i].key) == Found(attrs[i].val)
      {
        if !DynKey(attrs[i].key) {
          OwnValue(attrs, defaults, i);
        }
      }
      assert pairs == attrs;
    }
    if (pairs, ok) == (attrs, true) {
      forall a | a in attrs && DynKey(a.key)
        ensures Answered(attrs, defaults, a.key) == Found(a.val)
      {
        var i :| 0 <= i < |attrs| && attrs[i] == a;
      }
    }
  }

  /** With distinct keys, lists with the same keys in the same places stand for the same map only if they
      are the same list. */
  lemma SameMapSameList(pairs: seq<Attr>, attrs: seq<Attr>)
    requires Distinct(attrs) && |pairs| == |attrs| && forall i | 0 <= i < |attrs| :: pairs[i].key == attrs[i].key
    requires MapOf(pairs) == MapOf(attrs)
    ensures pairs == attrs
  {
    hide Fold;
    forall i | 0 <= i < |attrs|
      ensures pairs[i] == attrs[i]
    {
      LookupIsMap(pairs, attrs[i].key);
      LookupIsMap(attrs, attrs[i].key);
      assert FirstMatch(attrs, attrs[i].key) == i && FirstMatch(pairs, attrs[i].key) == i;
    }
  }

  /** The upload law: the client that asked ends up with the account's map iff the account happens to be in
      memory, or has no attributes at all, and its DynKey attributes echo what they are read from. */
  lemma UploadLaw(s: Snapshot, defaults: seq<Attr>)
    requires Inv(s)
    ensures var (pairs, ok) := Upload(s, defaults);
            ok && MapOf(Received([], pairs)) == View(s)
            <==> (s.loaded || View(s) == map[]) && DynKeysEcho(s.attrs, defaults)
  {
    hide Safe, DynKeysEcho, Received, Distinct, UploadFrom;
    var (pairs, ok) := Upload(s, defaults);
    UploadPairs(s.attrs, defaults, 0);
    UploadIsList(s.attrs, defaults);
    DistinctNone();
    ReceivedIsOverlay([], pairs);
    if ok {
      SameKeysDistinct(pairs, s.attrs);
      OverlayOfDistinct(map[], pairs);
      assert map[] + MapOf(pairs) == MapOf(pairs);
      if s.loaded && MapOf(pairs) == MapOf(s.attrs) {
        SameMapSameList(pairs, s.attrs);
      }
    }
  }

  lemma SameKeysDistinct(pairs: seq<Attr>, attrs: seq<Attr>)
    requires Distinct(attrs) && |pairs| == |attrs| && forall i | 0 <= i < |attrs| :: pairs[i].key == attrs[i].key
    ensures Distinct(pairs)
  {
    hide Fold;
  }

  /** So an account dropped from memory is sent without its attributes and with a good status, although it
      still stands for them. */
  lemma EvictedUploadsNothing(s: Snapshot, defaults: seq<Attr>, delta: nat, flush: nat)
    requires Inv(s) && s.loaded && !s.dirty && s.attrs != [] && Aged(s, delta, flush) >= flush
    ensures var t := Save(s, delta, flush, true);
            Inv(t) && View(t) == View(s) != map[] && Upload(t, defaults) == ([], true)
  {
    hide Fold, FileSafe;
    SaveKeepsView(s, delta, flush, true);
    assert Fold(s.attrs[0].key) in MapOf(s.attrs);
  }

  lemma GetWhenLoaded(s: Snapshot, defaults: seq<Attr>, key: string)
    requires s.loaded
    ensures Get(s, defaults, key, true) == (s.(accessed := true), Answered(s.attrs, defaults, key))
    ensures Answered(s.attrs, defaults, key) != Unavailable
  {
  }

  lemma NextInOrder(attrs: seq<Attr>, n: nat)
    requires Distinct(attrs) && n < |attrs|
    ensures NextKey(attrs, attrs[n].key) == if n + 1 < |attrs| then Some(attrs[n + 1].key) else None
  {
    DistinctIsExact(attrs);
    assert FirstExact(attrs, attrs[n].key) == n;
  }

  lemma DistinctIsExact(attrs: seq<Attr>)
    requires Distinct(attrs)
    ensures NoRepeatedKey(attrs)
  {
  }

  /** The lookup loop of account_get_strattr. */
  method FindAttr(attrs: seq<Attr>, key: string) returns (answer: Answer)
    ensures answer == Lookup(attrs, key)
  {
    var curr := 0;
    while curr < |attrs|
      invariant 0 <= curr <= |attrs|
      invariant forall j | 0 <= j < curr :: !SameText(attrs[j].key, key)
    {
      if SameText(attrs[curr].key, key) {
        assert FirstMatch(attrs, key) == curr;
        return Found(attrs[curr].val);
      }
      curr := curr + 1;
    }
    answer := Missing;
  }
}
