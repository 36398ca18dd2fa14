/** Whole runs of one account with whatever its owner stores, text the file cannot hold included. */
module AccountRuns {
  import opened Text
  import opened Attributes
  import opened AttributeFile
  import opened AccountStore

  /** What holds whatever is stored: keys are distinct, and an unchanged list in memory is the one the file was
      written from, or stands for the same map as the file. */
  ghost predicate Coherent(s: Snapshot) {
    && Distinct(s.attrs) && Writable(s.attrs)
    && (!s.loaded ==> s.attrs == [] && !s.dirty && s.file.Some?)
    && (s.loaded && !s.dirty ==> s.file.Some? && FileFits(s.file.value, s.attrs))
    && (s.file.Some? ==> Writable(LoadText(s.file.value)))
  }

  ghost predicate FileFits(text: string, attrs: seq<Attr>)
    requires Writable(attrs)
  {
    text == SaveText(attrs) || MapOf(LoadText(text)) == MapOf(attrs)
  }

  /** Keys and values are C strings. */
  predicate Storable(op: Op) {
    op.SetOp? ==> CString(op.key) && (op.val.Some? ==> CString(op.val.value))
  }

  /** A sweep that drops from memory what its file did not keep. */
  ghost predicate Drops(s: Snapshot, op: Op, cfg: Config)
    requires Writable(s.attrs)
  {
    && op.SweepOp? && s.loaded && !s.dirty && Aged(s, op.delta, cfg.flush) >= cfg.flush
    && s.file == Some(SaveText(s.attrs)) && exists a | a in s.attrs :: !FileSafe(a)
  }

  lemma InvIsCoherent(s: Snapshot)
    requires Inv(s)
    ensures Coherent(s)
  {
    hide Distinct, FileSafe, MapOf;
  }

  /** A new account is coherent whatever its name holds. */
  lemma NewIsCoherent(username: string, userid: nat, passhash1: string)
    requires CString(username) && CString(passhash1)
    ensures Coherent(NewAccount(username, userid, passhash1))
  {
    CreatedInv(username, userid, passhash1);
    hide Distinct, Writable, CreatedAttrs;
  }

  lemma LoadedIsCoherent(s: Snapshot, readable: bool)
    requires Coherent(s)
    ensures var (t, ok) := Loaded(s, readable);
            Coherent(t) && View(t) == View(s) && ok == (s.loaded || readable) && (ok ==> t.loaded)
  {
    hide Distinct, MapOf, CString;
    if !s.loaded && readable {
      DistinctNone();
      LoadKeepsDistinct(Lines(s.file.value), []);
    }
  }

  lemma SetIsCoherent(attrs: seq<Attr>, key: string, val: Option<string>)
    requires Distinct(attrs) && Writable(attrs) && CString(key) && (val.Some? ==> CString(val.value))
    ensures Distinct(Assign(attrs, key, val)) && Writable(Assign(attrs, key, val))
    ensures MapOf(Assign(attrs, key, val)) == Update(MapOf(attrs), key, val)
  {
    AssignIsUpdate(attrs, key, val);
    hide CString, FirstMatch, Distinct, MapOf;
  }

  /** Every call keeps it, and does what it would do to a plain map unless it drops what its file did not keep. */
  lemma StepLaw(s: Snapshot, op: Op, cfg: Config)
    requires Coherent(s) && Storable(op)
    ensures Coherent(Step(s, op, cfg).0)
    ensures Agrees(View(s), op, Step(s, op, cfg).1, cfg, View(Step(s, op, cfg).0)) <==> !Drops(s, op, cfg)
  {
    hide Distinct, Writable, FileSafe, MapOf, CString, FileFits;
    match op {
      case SetOp(key, val, readable) =>
        LoadedIsCoherent(s, readable);
        if Loaded(s, readable).1 {
          SetIsCoherent(Loaded(s, readable).0.attrs, key, val);
        }
      case GetOp(key, readable) =>
        LoadedIsCoherent(s.(accessed := true), readable);
        LookupIsMapAnswer(Loaded(s.(accessed := true), readable).0.attrs, cfg.defaults, key);
      case SweepOp(delta, writable) => SweepLaw(s, delta, cfg.flush, writable, cfg);
    }
  }

  /** What calls do to the account beside its contents: a read marks it as in use, a change that is not refused
      makes it differ from its file, and neither writes the file or makes the account older. */
  lemma CallLaw(s: Snapshot, op: Op, cfg: Config)
    requires Coherent(s) && Storable(op)
    ensures var (t, reply) := Step(s, op, cfg);
            match op
            case SetOp(_, _, readable) =>
              && t.age == s.age && t.accessed == s.accessed && t.file == s.file
              && (reply == Refused <==> !s.loaded && !readable)
              && if reply == Refused then t == s else t.loaded && t.dirty
            case GetOp(_, readable) =>
              && t.age == s.age && t.accessed && t.file == s.file && t.dirty == s.dirty
              && t.loaded == (s.loaded || readable)
            case SweepOp(_, _) => !t.accessed && (t.loaded ==> s.loaded)
  {
    hide Assign, LoadLines, Lines, SaveText, Answered;
    WritableNow(s);
  }

  lemma SweepLaw(s: Snapshot, delta: nat, flush: nat, writable: bool, cfg: Config)
    requires Coherent(s) && cfg.flush == flush
    ensures Coherent(Save(s, delta, flush, writable))
    ensures View(Save(s, delta, flush, writable)) == View(s) <==> !Drops(s, SweepOp(delta, writable), cfg)
  {
    hide Distinct, Writable, FileSafe, MapOf;
    DistinctNone();
    NothingIsWritable();
    if s.loaded {
      ReloadLaw(s.attrs);
    }
  }

  lemma NothingIsWritable()
    ensures Writable([])
  {
  }

  // -------------------------------------------------------------- whole runs

  /** In every step the account does and answers what the plain map does that it stands for. */
  ghost predicate PlainThroughout(s: Snapshot, ops: seq<Op>, cfg: Config)
    requires Coherent(s) && forall i | 0 <= i < |ops| :: Storable(ops[i])
    decreases ops
  {
    ops == [] ||
    (StepLaw(s, ops[0], cfg);
     var (t, reply) := Step(s, ops[0], cfg);
     Agrees(View(s), ops[0], reply, cfg, View(t)) && PlainThroughout(t, ops[1..], cfg))
  }

  ghost predicate NeverDrops(s: Snapshot, ops: seq<Op>, cfg: Config)
    requires Coherent(s) && forall i | 0 <= i < |ops| :: Storable(ops[i])
    decreases ops
  {
    ops == [] ||
    (StepLaw(s, ops[0], cfg);
     !Drops(s, ops[0], cfg) && NeverDrops(Step(s, ops[0], cfg).0, ops[1..], cfg))
  }

  /** An account is a plain map throughout a run iff no sweep of the run drops it from memory when its file was
      written from a list with an empty key or a double quote. */
  lemma {:induction false} RunLaw(s: Snapshot, ops: seq<Op>, cfg: Config)
    requires Coherent(s) && forall i | 0 <= i < |ops| :: Storable(ops[i])
    ensures PlainThroughout(s, ops, cfg) <==> NeverDrops(s, ops, cfg)
    decreases ops
  {
    hide Coherent, Drops, Agrees, View, Step;
    if ops != [] {
      StepLaw(s, ops[0], cfg);
      WritableNow(s);
      RunLaw(Step(s, ops[0], cfg).0, ops[1..], cfg);
    }
  }

  lemma WritableNow(s: Snapshot)
    requires Coherent(s)
    ensures Writable(s.attrs)
  {
  }
}
