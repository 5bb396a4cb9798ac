/**
 The certificate store of internal/certs/store.go: a directory of credential bundles
 and a file that names the active one.

 The first part is the specification on values (what each operation does to the
 directory); the class Store at the end is the store itself, updated in place.
 Keys, certificates and authorities are symbols: a certificate records the public key
 it was issued for, its issuer, its server identity and its expiry.
 */
module CertStore {
  import opened Wrappers
  import opened Durable

  datatype Cert = Cert(serial: nat, publicKey: nat, issuer: nat, server: string, notAfter: int)
  datatype Csr = Csr(publicKey: nat, server: string)

  /** The files present in one bundle directory. */
  datatype Bundle = Bundle(key: Option<nat>, csr: Option<Csr>, cert: Option<Cert>, ca: Option<nat>)

  datatype File = KeyFile | CsrFile | CertFile | CaFile

  const EMPTY_BUNDLE := Bundle(None, None, None, None)
  const DAY_SECONDS := 86400

  /** The store directory: raw contents of the pointer file, bundles by id, legacy files. */
  datatype Certs = Certs(pointer: Option<string>, bundles: map<string, Bundle>, legacy: Bundle)

  /** What an activation replaced (the zero value of `previous` is the empty string). */
  datatype Activation = Activation(previous: string, hadPointer: bool)

  /** The fate of a recursive removal, and the files already gone if it did not finish. */
  datatype Removal = Removal(fate: Fate, gone: set<File>)

  datatype PrepareFaults = PrepareFaults(mkdir: Fate, key: Fate, csr: Fate)

  datatype Held = Held(certs: Certs, outcome: Outcome)

  // ---------- identifiers and the pointer file ----------

  predicate IsIdChar(c: char) {
    'A' <= c <= 'Z' || 'a' <= c <= 'z' || '0' <= c <= '9' || c == '_' || c == '-'
  }

  /** The pattern ^[A-Za-z0-9_-]{1,64}$. */
  predicate IsBundleId(id: string) {
    1 <= |id| <= 64 && forall i :: 0 <= i < |id| ==> IsIdChar(id[i])
  }

  predicate IsSpace(c: char) {
    '\t' <= c <= '\r' || c == ' ' || c == '\U{0085}' || c == '\U{00A0}' || c == '\U{1680}' ||
    '\U{2000}' <= c <= '\U{200A}' || c == '\U{2028}' || c == '\U{2029}' || c == '\U{202F}' ||
    c == '\U{205F}' || c == '\U{3000}'
  }

  function TrimLeft(s: string): string {
    if s != "" && IsSpace(s[0]) then TrimLeft(s[1..]) else s
  }

  function TrimRight(s: string): string {
    if s != "" && IsSpace(s[|s| - 1]) then TrimRight(s[..|s| - 1]) else s
  }

  function TrimSpace(s: string): string {
    TrimRight(TrimLeft(s))
  }

  /** readPointer: the managed bundle named by the pointer file, if it names one. */
  function PointerOf(file: Option<string>): Option<string> {
    match file
    case None => None
    case Some(text) =>
      var id := TrimSpace(text);
      if IsBundleId(id) then Some(id) else None
  }

  function PointerText(id: string): string {
    id + "\n"
  }

  /** Writing a bundle id to the pointer file and reading it back gives the id. */
  lemma PointerRoundTrip(id: string)
    requires IsBundleId(id)
    ensures PointerOf(Some(PointerText(id))) == Some(id)
  {
    var text := PointerText(id);
    assert IsIdChar(text[0]) && IsIdChar(id[|id| - 1]);
    assert TrimLeft(text) == text;
    assert text[..|text| - 1] == id;
    assert TrimRight(id) == id;
  }

  predicate Blank(s: string) {
    forall i :: 0 <= i < |s| ==> s[i] == ' ' || s[i] == '\t' || s[i] == '\r' || s[i] == '\n'
  }

  lemma {:induction false} TrimsLeft(left: string, s: string)
    requires Blank(left)
    ensures TrimLeft(left + s) == TrimLeft(s)
  {
    if left == "" {
      assert left + s == s;
    } else {
      TrimsLeft(left[1..], s);
      assert (left + s)[1..] == left[1..] + s && (left + s)[0] == left[0];
    }
  }

  lemma {:induction false} TrimsRight(s: string, right: string)
    requires Blank(right)
    ensures TrimRight(s + right) == TrimRight(s)
  {
    if right == "" {
      assert s + right == s;
    } else {
      var last := |right| - 1;
      TrimsRight(s, right[..last]);
      OneTrimmed(s + right[..last], right[last]);
      assert s + right == (s + right[..last]) + [right[last]];
    }
  }

  lemma OneTrimmed(s: string, c: char)
    requires IsSpace(c)
    ensures TrimRight(s + [c]) == TrimRight(s)
  {
    assert (s + [c])[..|s|] == s;
  }

  /** Spaces and line ends around the id do not matter. */
  lemma PointerIgnoresSpace(left: string, id: string, right: string)
    requires IsBundleId(id) && Blank(left) && Blank(right)
    ensures PointerOf(Some(left + id + right)) == Some(id)
  {
    TrimsLeft(left, id + right);
    assert left + id + right == left + (id + right);
    assert IsIdChar(id[0]) && IsIdChar(id[|id| - 1]);
    assert TrimLeft(id + right) == id + right;
    TrimsRight(id, right);
    assert TrimRight(id) == id;
  }

  /** A rotation id is the word and thirty-two hexadecimal digits: every one is a bundle id, and no bundle id
      holds a character that means something in a path. */
  lemma RotationIdsAreBundleIds(hex: string, id: string)
    requires |hex| == 32 && forall i :: 0 <= i < 32 ==> '0' <= hex[i] <= '9' || 'a' <= hex[i] <= 'f'
    ensures IsBundleId("rotation-" + hex)
    ensures IsBundleId(id) ==> '/' !in id && '.' !in id && '\\' !in id && |id| <= 64 && id != ""
    ensures |id| > 64 || id == "" ==> !IsBundleId(id)
  {
    var name := "rotation-" + hex;
    forall i | 0 <= i < |name| ensures IsIdChar(name[i]) {
      if i >= 9 { assert name[i] == hex[i - 9]; }
    }
  }

  // ---------- bundles ----------

  predicate CompleteBundle(b: Bundle) {
    b.cert.Some? && b.key.Some? && b.ca.Some?
  }

  predicate Complete(c: Certs, id: string) {
    id in c.bundles && CompleteBundle(c.bundles[id])
  }

  /** validateBundle: the certificate is for the key, from the CA, for the server, and lasts a day. */
  predicate ValidBundle(cert: Cert, key: nat, ca: nat, server: string, now: int) {
    && cert.publicKey == key
    && cert.issuer == ca
    && cert.notAfter - now >= DAY_SECONDS
    && (server == "" || cert.server == server)
  }

  function BundleAt(c: Certs, id: string): Bundle {
    if id in c.bundles then c.bundles[id] else EMPTY_BUNDLE
  }

  function WithBundle(c: Certs, id: string, b: Bundle): Certs {
    c.(bundles := c.bundles[id := b])
  }

  /** ActivePaths: the bundle the agent would connect with. */
  function Active(c: Certs): Bundle {
    match PointerOf(c.pointer)
    case None => c.legacy
    case Some(id) => if Complete(c, id) then c.bundles[id] else c.legacy
  }

  function Without(b: Bundle, gone: set<File>): Bundle {
    Bundle(if KeyFile in gone then None else b.key,
           if CsrFile in gone then None else b.csr,
           if CertFile in gone then None else b.cert,
           if CaFile in gone then None else b.ca)
  }

  // ---------- operations ----------

  function Prepare(c: Certs, id: string, server: string, key: nat, f: PrepareFaults): Held {
    if !IsBundleId(id) then Held(c, Failed)
    else if BundleAt(c, id).csr.Some? then Held(c, Done)
    else if !f.mkdir.Works? then Held(c, OutcomeOf(f.mkdir))
    else
      var made := BundleAt(c, id);
      if !f.key.Works? then Held(WithBundle(c, id, made), OutcomeOf(f.key))
      else
        var keyed := made.(key := Some(key));
        if !f.csr.Works? then Held(WithBundle(c, id, keyed), OutcomeOf(f.csr))
        else Held(WithBundle(c, id, keyed.(csr := Some(Csr(key, server)))), Done)
  }

  predicate Stageable(c: Certs, id: string, server: string, cert: Cert, ca: nat, now: int) {
    && IsBundleId(id)
    && BundleAt(c, id).key.Some?
    && ValidBundle(cert, BundleAt(c, id).key.value, ca, server, now)
  }

  function Stage(c: Certs, id: string, server: string, cert: Cert, ca: nat, now: int,
                 writeCert: Fate, writeCa: Fate): Held {
    if !Stageable(c, id, server, cert, ca, now) then Held(c, Failed)
    else if !writeCert.Works? then Held(c, OutcomeOf(writeCert))
    else
      var signed := BundleAt(c, id).(cert := Some(cert));
      if !writeCa.Works? then Held(WithBundle(c, id, signed), OutcomeOf(writeCa))
      else Held(WithBundle(c, id, signed.(ca := Some(ca))), Done)
  }

  function CurrentPointer(c: Certs): Activation {
    match PointerOf(c.pointer)
    case None => Activation("", false)
    case Some(id) => Activation(id, true)
  }

  function Activate(c: Certs, id: string, f: Fate): Held {
    if !IsBundleId(id) || !Complete(c, id) then Held(c, Failed)
    else if !f.Works? then Held(c, OutcomeOf(f))
    else Held(c.(pointer := Some(PointerText(id))), Done)
  }

  function Rollback(c: Certs, a: Activation, f: Fate): Held {
    if a.hadPointer && !IsBundleId(a.previous) then Held(c, Failed)
    else if !f.Works? then Held(c, OutcomeOf(f))
    else if !a.hadPointer then Held(c.(pointer := None), Done)
    else Held(c.(pointer := Some(PointerText(a.previous))), Done)
  }

  function Discard(c: Certs, id: string, rm: Removal): Held {
    if !IsBundleId(id) || PointerOf(c.pointer) == Some(id) then Held(c, Failed)
    else if rm.fate.Works? then Held(c.(bundles := c.bundles - {id}), Done)
    else if id !in c.bundles then Held(c, OutcomeOf(rm.fate))
    else Held(WithBundle(c, id, Without(c.bundles[id], rm.gone)), OutcomeOf(rm.fate))
  }

  // ---------- enrollment ----------

  /** The files of a bundle come in the order of a map iteration, so in any order. */
  predicate WritesAll(order: seq<File>) {
    KeyFile in order && CertFile in order && CaFile in order && CsrFile !in order
  }

  datatype SaveFaults = SaveFaults(mkdir: Fate, order: seq<File>, write: File -> Fate, undoWrites: Removal,
                                   activate: Fate, undoBundle: Removal)

  function PutFile(b: Bundle, file: File, key: nat, cert: Cert, ca: nat): Bundle {
    match file
    case KeyFile => b.(key := Some(key))
    case CertFile => b.(cert := Some(cert))
    case CaFile => b.(ca := Some(ca))
    case CsrFile => b
  }

  /** os.RemoveAll of one bundle on the way out of a failing call. */
  function Removed(c: Certs, id: string, rm: Removal): Held {
    var after := if rm.fate.Works? then c.(bundles := c.bundles - {id})
                 else if id in c.bundles then WithBundle(c, id, Without(c.bundles[id], rm.gone)) else c;
    Held(after, if rm.fate.Dies? then Crashed else Failed)
  }

  /** writeCompleteBundle, from the k-th file on. */
  function WriteFiles(c: Certs, id: string, key: nat, cert: Cert, ca: nat, f: SaveFaults, k: nat): Held
    requires k <= |f.order|
    decreases |f.order| - k
  {
    if k == |f.order| then Held(c, Done)
    else
      match f.write(f.order[k])
      case Dies => Held(c, Crashed)
      case Fails => Removed(c, id, f.undoWrites)
      case Works =>
        WriteFiles(WithBundle(c, id, PutFile(BundleAt(c, id), f.order[k], key, cert, ca)), id, key, cert, ca, f, k + 1)
  }

  /** Save: an enrollment bundle is written and then made active. */
  function SaveEnrollment(c: Certs, id: string, key: nat, cert: Cert, ca: nat, now: int, f: SaveFaults): Held {
    if !ValidBundle(cert, key, ca, "", now) then Held(c, Failed)
    else if !f.mkdir.Works? then Held(c, OutcomeOf(f.mkdir))
    else
      var written := WriteFiles(WithBundle(c, id, BundleAt(c, id)), id, key, cert, ca, f, 0);
      if !written.outcome.Done? then written
      else
        match f.activate
        case Works => Held(written.certs.(pointer := Some(PointerText(id))), Done)
        case Dies => Held(written.certs, Crashed)
        case Fails => Removed(written.certs, id, f.undoBundle)
  }

  lemma {:induction false} WriteFilesTouchOneBundle(c: Certs, id: string, key: nat, cert: Cert, ca: nat, f: SaveFaults, k: nat)
    requires k <= |f.order| && WritesAll(f.order)
    requires forall j :: 0 <= j < k ==> PutFile(BundleAt(c, id), f.order[j], key, cert, ca) == BundleAt(c, id)
    ensures var w := WriteFiles(c, id, key, cert, ca, f, k);
            && w.certs.pointer == c.pointer && w.certs.legacy == c.legacy
            && (forall other :: other != id ==> BundleAt(w.certs, other) == BundleAt(c, other))
            && (w.outcome.Done? ==>
                  (k < |f.order| ==> id in w.certs.bundles) &&
                  forall file :: file in f.order ==> PutFile(BundleAt(w.certs, id), file, key, cert, ca) == BundleAt(w.certs, id))
    decreases |f.order| - k
  {
    if k < |f.order| && f.write(f.order[k]).Works? {
      var next := WithBundle(c, id, PutFile(BundleAt(c, id), f.order[k], key, cert, ca));
      WriteFilesTouchOneBundle(next, id, key, cert, ca, f, k + 1);
    }
  }

  /** Enrollment activates exactly the given files, or leaves the active bundle alone. */
  lemma EnrollmentActivatesAllOrNothing(c: Certs, id: string, key: nat, cert: Cert, ca: nat, now: int, f: SaveFaults)
    requires IsBundleId(id) && WritesAll(f.order) && PointerOf(c.pointer) != Some(id)
    ensures var a := SaveEnrollment(c, id, key, cert, ca, now, f);
            && (a.outcome.Done? ==>
                  && PointerOf(a.certs.pointer) == Some(id)
                  && Active(a.certs).key == Some(key) && Active(a.certs).cert == Some(cert) && Active(a.certs).ca == Some(ca)
                  && cert.publicKey == key && cert.issuer == ca)
            && (!a.outcome.Done? ==> a.certs.pointer == c.pointer && Active(a.certs) == Active(c))
  {
    PointerRoundTrip(id);
    var start := WithBundle(c, id, BundleAt(c, id));
    WriteFilesTouchOneBundle(start, id, key, cert, ca, f, 0);
    var w := WriteFiles(start, id, key, cert, ca, f, 0);
    if w.outcome.Done? {
      var b := BundleAt(w.certs, id);
      assert PutFile(b, KeyFile, key, cert, ca) == PutFile(b, CertFile, key, cert, ca) == PutFile(b, CaFile, key, cert, ca) == b;
    }
    if PointerOf(c.pointer).Some? {
      var active := PointerOf(c.pointer).value;
      assert BundleAt(w.certs, active) == BundleAt(c, active);
    }
  }

  /** With working writes an enrollment succeeds exactly for a certificate that is for the key, from the CA
      and good for a day; any other is refused and nothing is written. */
  lemma EnrollmentSucceedsExactlyWhen(c: Certs, id: string, key: nat, cert: Cert, ca: nat, now: int, f: SaveFaults)
    ensures !(cert.publicKey == key && cert.issuer == ca && now + 24 * 60 * 60 <= cert.notAfter) ==>
              SaveEnrollment(c, id, key, cert, ca, now, f) == Held(c, Failed)
    ensures f.mkdir.Works? && f.activate.Works? && (forall file :: f.write(file).Works?) ==>
              (SaveEnrollment(c, id, key, cert, ca, now, f).outcome.Done? <==>
               cert.publicKey == key && cert.issuer == ca && now + 24 * 60 * 60 <= cert.notAfter)
  {
    if f.mkdir.Works? && f.activate.Works? && (forall file :: f.write(file).Works?) {
      WorkingWritesFinish(WithBundle(c, id, BundleAt(c, id)), id, key, cert, ca, f, 0);
    }
  }

  lemma {:induction false} WorkingWritesFinish(c: Certs, id: string, key: nat, cert: Cert, ca: nat, f: SaveFaults, k: nat)
    requires k <= |f.order| && forall file :: f.write(file).Works?
    ensures WriteFiles(c, id, key, cert, ca, f, k).outcome.Done?
    decreases |f.order| - k
  {
    if k < |f.order| {
      WorkingWritesFinish(WithBundle(c, id, PutFile(BundleAt(c, id), f.order[k], key, cert, ca)), id, key, cert, ca, f, k + 1);
    }
  }

  /** An enrollment that fails after its directory was made removes it again, if its removals work. */
  lemma FailedEnrollmentCleansUp(c: Certs, id: string, key: nat, cert: Cert, ca: nat, now: int, f: SaveFaults)
    requires SaveEnrollment(c, id, key, cert, ca, now, f).outcome.Failed? && BundleAt(c, id) == EMPTY_BUNDLE
    requires f.undoWrites.fate.Works? && f.undoBundle.fate.Works?
    ensures BundleAt(SaveEnrollment(c, id, key, cert, ca, now, f).certs, id) == EMPTY_BUNDLE
  {
    FailedWritesCleanUp(WithBundle(c, id, BundleAt(c, id)), id, key, cert, ca, f, 0);
  }

  lemma {:induction false} FailedWritesCleanUp(c: Certs, id: string, key: nat, cert: Cert, ca: nat, f: SaveFaults, k: nat)
    requires k <= |f.order| && f.undoWrites.fate.Works?
    ensures WriteFiles(c, id, key, cert, ca, f, k).outcome.Failed? ==>
              BundleAt(WriteFiles(c, id, key, cert, ca, f, k).certs, id) == EMPTY_BUNDLE
    decreases |f.order| - k
  {
    if k < |f.order| {
      FailedWritesCleanUp(WithBundle(c, id, PutFile(BundleAt(c, id), f.order[k], key, cert, ca)), id, key, cert, ca, f, k + 1);
    }
  }

  /** A discard that works removes exactly its bundle, and never the one the pointer file names; one that
      stops half-way removes only files of that bundle. */
  lemma DiscardRemovesOneBundle(c: Certs, id: string, rm: Removal)
    ensures var d := Discard(c, id, rm);
            && d.certs.pointer == c.pointer && d.certs.legacy == c.legacy
            && (forall k :: k != id ==> BundleAt(d.certs, k) == BundleAt(c, k))
            && (IsBundleId(id) && PointerOf(c.pointer) != Some(id) ==>
                  d.outcome == OutcomeOf(rm.fate) && (rm.fate.Works? ==> BundleAt(d.certs, id) == EMPTY_BUNDLE))
            && (!IsBundleId(id) || PointerOf(c.pointer) == Some(id) ==> d == Held(c, Failed))
            && BundleAt(d.certs, id).key in {BundleAt(c, id).key, None}
            && BundleAt(d.certs, id).csr in {BundleAt(c, id).csr, None}
            && BundleAt(d.certs, id).cert in {BundleAt(c, id).cert, None}
            && BundleAt(d.certs, id).ca in {BundleAt(c, id).ca, None}
  {
  }

  /** What readPointer sees after an activation and after its rollback. */
  lemma PointerAfter(c: Certs, id: string, a: Activation, f: Fate)
    ensures Activate(c, id, f).outcome.Done? ==>
              PointerOf(Activate(c, id, f).certs.pointer) == Some(id) && Complete(c, id)
    ensures !Activate(c, id, f).outcome.Done? ==> Activate(c, id, f).certs == c
    ensures Rollback(c, a, f).outcome.Done? ==>
              PointerOf(Rollback(c, a, f).certs.pointer) == (if a.hadPointer then Some(a.previous) else None)
    ensures !Rollback(c, a, f).outcome.Done? ==> Rollback(c, a, f).certs == c
  {
    if IsBundleId(id) { PointerRoundTrip(id); }
    if IsBundleId(a.previous) { PointerRoundTrip(a.previous); }
  }

  /** Rolling an activation back restores what readPointer saw before it, whatever the file held. */
  lemma RollbackUndoesActivate(c: Certs, id: string)
    requires Activate(c, id, Works).outcome.Done?
    ensures var back := Rollback(Activate(c, id, Works).certs, CurrentPointer(c), Works);
            && back.outcome.Done?
            && PointerOf(back.certs.pointer) == PointerOf(c.pointer)
            && Active(back.certs) == Active(c)
  {
    PointerAfter(Activate(c, id, Works).certs, id, CurrentPointer(c), Works);
  }

  // ---------- the store, updated in place ----------

  class Store {
    var pointer: Option<string>
    var bundles: map<string, Bundle>
    const legacy: Bundle

    constructor (c: Certs)
      ensures View() == c
    {
      pointer, bundles, legacy := c.pointer, c.bundles, c.legacy;
    }

    ghost function View(): Certs
      reads this
    {
      Certs(pointer, bundles, legacy)
    }

    method ReadPointer() returns (id: string, ok: bool)
      ensures Activation(id, ok) == CurrentPointer(View())
      ensures ok <==> PointerOf(pointer).Some?
    {
      if pointer.None? { return "", false; }
      var trimmed := TrimSpace(pointer.value);
      if !IsBundleId(trimmed) { return "", false; }
      return trimmed, true;
    }

    /** The certificate of ActivePaths: of the bundle the pointer file names if it is complete, or the legacy one. */
    method ActiveCert() returns (cert: Option<Cert>)
      ensures cert == Active(View()).cert
    {
      var id, ok := ReadPointer();
      if ok && id in bundles && CompleteBundle(bundles[id]) { return bundles[id].cert; }
      return legacy.cert;
    }

    /** Save, with a fresh random id. */
    method Save(id: string, key: nat, cert: Cert, ca: nat, now: int, f: SaveFaults) returns (outcome: Outcome)
      modifies this
      ensures Held(View(), outcome) == SaveEnrollment(old(View()), id, key, cert, ca, now, f)
    {
      if !ValidBundle(cert, key, ca, "", now) { return Failed; }
      if !f.mkdir.Works? { return OutcomeOf(f.mkdir); }
      if id !in bundles { bundles := bundles[id := EMPTY_BUNDLE]; }
      ghost var made := View();
      assert made == WithBundle(old(View()), id, BundleAt(old(View()), id));
      for k := 0 to |f.order|
        invariant id in bundles
        invariant WriteFiles(View(), id, key, cert, ca, f, k) == WriteFiles(made, id, key, cert, ca, f, 0)
      {
        var fate := f.write(f.order[k]);
        if fate.Dies? { return Crashed; }
        if fate.Fails? {
          RemoveBundle(id, f.undoWrites);
          return if f.undoWrites.fate.Dies? then Crashed else Failed;
        }
        bundles := bundles[id := PutFile(bundles[id], f.order[k], key, cert, ca)];
      }
      if f.activate.Dies? { return Crashed; }
      if f.activate.Fails? {
        RemoveBundle(id, f.undoBundle);
        return if f.undoBundle.fate.Dies? then Crashed else Failed;
      }
      pointer := Some(PointerText(id));
      return Done;
    }

    method RemoveBundle(id: string, rm: Removal)
      modifies this
      ensures View() == Removed(old(View()), id, rm).certs
    {
      if rm.fate.Works? {
        bundles := bundles - {id};
      } else if id in bundles {
        bundles := bundles[id := Without(bundles[id], rm.gone)];
      }
    }

    method PrepareRotation(id: string, server: string, key: nat, f: PrepareFaults)
      returns (csr: Option<Csr>, outcome: Outcome)
      modifies this
      ensures Held(View(), outcome) == Prepare(old(View()), id, server, key, f)
      ensures outcome.Done? ==> csr.Some? && csr == BundleAt(View(), id).csr
    {
      csr := None;
      if !IsBundleId(id) { return csr, Failed; }
      if id in bundles && bundles[id].csr.Some? { return bundles[id].csr, Done; }
      if !f.mkdir.Works? { return csr, OutcomeOf(f.mkdir); }
      if id !in bundles { bundles := bundles[id := EMPTY_BUNDLE]; }
      assert bundles == old(bundles)[id := BundleAt(old(View()), id)];
      if !f.key.Works? { return csr, OutcomeOf(f.key); }
      bundles := bundles[id := bundles[id].(key := Some(key))];
      if !f.csr.Works? { return csr, OutcomeOf(f.csr); }
      csr := Some(Csr(key, server));
      bundles := bundles[id := bundles[id].(csr := csr)];
      return csr, Done;
    }

    method StageRotation(id: string, server: string, cert: Cert, ca: nat, now: int,
                         writeCert: Fate, writeCa: Fate)
      returns (outcome: Outcome)
      modifies this
      ensures Held(View(), outcome) == Stage(old(View()), id, server, cert, ca, now, writeCert, writeCa)
    {
      if !IsBundleId(id) { return Failed; }
      if id !in bundles || bundles[id].key.None? { return Failed; }
      if !ValidBundle(cert, bundles[id].key.value, ca, server, now) { return Failed; }
      if !writeCert.Works? { return OutcomeOf(writeCert); }
      bundles := bundles[id := bundles[id].(cert := Some(cert))];
      if !writeCa.Works? { return OutcomeOf(writeCa); }
      bundles := bundles[id := bundles[id].(ca := Some(ca))];
      return Done;
    }

    method ActivateRotation(id: string, f: Fate) returns (a: Activation, outcome: Outcome)
      modifies this
      ensures Held(View(), outcome) == Activate(old(View()), id, f)
      ensures outcome.Done? ==> a == CurrentPointer(old(View()))
    {
      a := Activation("", false);
      if !IsBundleId(id) { return a, Failed; }
      if id !in bundles || !CompleteBundle(bundles[id]) { return a, Failed; }
      var previous, hadPointer := ReadPointer();
      if !f.Works? { return a, OutcomeOf(f); }
      pointer := Some(PointerText(id));
      return Activation(previous, hadPointer), Done;
    }

    method RollbackTo(a: Activation, f: Fate) returns (outcome: Outcome)
      modifies this
      ensures Held(View(), outcome) == Rollback(old(View()), a, f)
    {
      if !a.hadPointer {
        if !f.Works? { return OutcomeOf(f); }
        pointer := None;
        return Done;
      }
      if !IsBundleId(a.previous) { return Failed; }
      if !f.Works? { return OutcomeOf(f); }
      pointer := Some(PointerText(a.previous));
      return Done;
    }

    method DiscardRotation(id: string, rm: Removal) returns (outcome: Outcome)
      modifies this
      ensures Held(View(), outcome) == Discard(old(View()), id, rm)
    {
      if !IsBundleId(id) { return Failed; }
      var active, ok := ReadPointer();
      if active == id { return Failed; }
      match rm.fate {
        case Works => bundles := bundles - {id};
        case _ => if id in bundles { bundles := bundles[id := Without(bundles[id], rm.gone)]; }
      }
      return OutcomeOf(rm.fate);
    }
  }
}
