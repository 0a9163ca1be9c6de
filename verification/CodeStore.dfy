/**
 One-time verification codes by e-mail address: a cooldown between codes, a time to
 live, and a limit on wrong tries. Times and durations are in nanoseconds.
 */
module CodeStore {
  const MaxVerifyAttempts: nat := 5
  const Second := 1_000_000_000

  datatype CodeEntry = CodeEntry(code: string, expireAt: int, lastSent: int, attempts: nat)

  datatype Settings = Settings(ttl: int, cool: int)

  type Codes = map<string, CodeEntry>

  // ----- what each operation does to the table -----

  datatype Issued = Issued(codes: Codes, code: string, ok: bool, cooldownRemaining: int)

  predicate CoolingDown(p: Settings, codes: Codes, email: string, now: int) {
    email in codes && now - codes[email].lastSent < p.cool
  }

  function GenerateStep(p: Settings, codes: Codes, email: string, now: int, random: string): Issued {
    if CoolingDown(p, codes, email, now) then
      var remaining := p.cool - (now - codes[email].lastSent);
      Issued(codes, "", false, remaining / Second + 1)
    else
      Issued(codes[email := CodeEntry(random, now + p.ttl, now, 0)], random, true, 0)
  }

  datatype Checked = Checked(codes: Codes, ok: bool)

  function VerifyStep(codes: Codes, email: string, code: string, now: int): Checked {
    if email !in codes then Checked(codes, false)
    else
      var entry := codes[email];
      if now > entry.expireAt then Checked(codes - {email}, false)
      else if entry.code != code then
        if entry.attempts + 1 >= MaxVerifyAttempts then Checked(codes - {email}, false)
        else Checked(codes[email := entry.(attempts := entry.attempts + 1)], false)
      else Checked(codes - {email}, true)
  }

  function CleanupStep(codes: Codes, now: int): Codes {
    map email | email in codes && now <= codes[email].expireAt :: codes[email]
  }

  class Store {
    var codes: Codes
    const settings: Settings

    constructor (ttl: int, cooldown: int)
      ensures codes == map[] && settings == Settings(ttl, cooldown)
    {
      codes := map[];
      settings := Settings(ttl, cooldown);
    }

    method Generate(email: string, now: int, random: string) returns (code: string, ok: bool, cooldownRemaining: int)
      modifies this
      ensures Issued(codes, code, ok, cooldownRemaining) == GenerateStep(settings, old(codes), email, now, random)
    {
      if email in codes {
        var elapsed := now - codes[email].lastSent;
        if elapsed < settings.cool {
          var remaining := settings.cool - elapsed;
          return "", false, remaining / Second + 1;
        }
      }
      code := random;
      codes := codes[email := CodeEntry(code, now + settings.ttl, now, 0)];
      return code, true, 0;
    }

    method Verify(email: string, code: string, now: int) returns (ok: bool)
      modifies this
      ensures Checked(codes, ok) == VerifyStep(old(codes), email, code, now)
    {
      if email !in codes {
        return false;
      }
      var entry := codes[email];
      if now > entry.expireAt {
        codes := codes - {email};
        return false;
      }
      if entry.code != code {
        entry := entry.(attempts := entry.attempts + 1);
        if entry.attempts >= MaxVerifyAttempts {
          codes := codes - {email};
        } else {
          codes := codes[email := entry];
        }
        return false;
      }
      codes := codes - {email};
      return true;
    }

    /** Deletes while ranging over the table. */
    method CleanupExpired(now: int) returns (removed: nat)
      modifies this
      ensures codes == CleanupStep(old(codes), now)
      ensures removed == |old(codes)| - |codes|
    {
      removed := 0;
      var todo := codes.Keys;
      while todo != {}
        invariant todo <= codes.Keys <= old(codes).Keys
        invariant forall email | email in codes :: codes[email] == old(codes)[email]
        invariant forall email | email in old(codes) ::
            email in codes <==> email in todo || now <= old(codes)[email].expireAt
        invariant removed == |old(codes)| - |codes|
        decreases todo
      {
        var email :| email in todo;
        if now > codes[email].expireAt {
          ghost var before := codes;
          codes := codes - {email};
          assert codes.Keys == before.Keys - {email};
          assert |codes.Keys| == |before.Keys| - 1;
          removed := removed + 1;
        }
        todo := todo - {email};
      }
    }
  }

  /** Waiting the reported number of seconds ends the cooldown; one second less does not get past it. */
  lemma RemainingIsEnough(p: Settings, codes: Codes, email: string, now: int, random: string)
    requires CoolingDown(p, codes, email, now)
    ensures var r := GenerateStep(p, codes, email, now, random).cooldownRemaining;
      && !CoolingDown(p, codes, email, now + r * 1_000_000_000)
      && now + (r - 1) * 1_000_000_000 <= codes[email].lastSent + p.cool
  {
  }

  /**
   A code is handed out exactly when no entry of the address is younger than the cooldown. The code
   returned, and no other, is then accepted for the address, until its time to live has passed; a
   refusal hands out nothing and changes nothing.
   */
  lemma IssuedCodeWorks(p: Settings, codes: Codes, email: string, now: int, random: string, code: string, later: int)
    ensures var r := GenerateStep(p, codes, email, now, random);
      && (r.ok <==> email in codes ==> now - codes[email].lastSent >= p.cool)
      && (r.ok ==> r.code == random && r.cooldownRemaining == 0)
      && (r.ok ==> (VerifyStep(r.codes, email, code, later).ok <==> code == r.code && later <= now + p.ttl))
      && (!r.ok ==> r.code == "" && r.codes == codes && r.cooldownRemaining > 0)
      && (forall other | other != email :: other in r.codes <==> other in codes)
      && (forall other | other != email && other in codes :: r.codes[other] == codes[other])
  {
  }

  // ----- traces -----

  datatype Op =
    | Generate(email: string, now: int, random: string)
    | Verify(email: string, code: string, now: int)
    | Cleanup(now: int)

  function Step(p: Settings, codes: Codes, op: Op): Codes {
    match op
    case Generate(email, now, random) => GenerateStep(p, codes, email, now, random).codes
    case Verify(email, code, now) => VerifyStep(codes, email, code, now).codes
    case Cleanup(now) => CleanupStep(codes, now)
  }

  /** The table before operation k of a trace that starts empty. */
  function Before(p: Settings, tr: seq<Op>, k: nat): Codes
    requires k <= |tr|
  {
    if k == 0 then map[] else Step(p, Before(p, tr, k - 1), tr[k - 1])
  }

  predicate Monotone(tr: seq<Op>) {
    forall i, j | 0 <= i < j < |tr| :: tr[i].now <= tr[j].now
  }

  /** Operation i hands out a new code for the address. */
  predicate Issues(p: Settings, tr: seq<Op>, i: nat, email: string)
    requires i < |tr|
  {
    tr[i].Generate? && tr[i].email == email && !CoolingDown(p, Before(p, tr, i), email, tr[i].now)
  }

  /** Operation i accepts a code for the address. */
  predicate Accepts(p: Settings, tr: seq<Op>, i: nat, email: string)
    requires i < |tr|
  {
    tr[i].Verify? && tr[i].email == email && VerifyStep(Before(p, tr, i), email, tr[i].code, tr[i].now).ok
  }

  /** g is the operation that handed out the address's latest code before operation k. */
  predicate Latest(p: Settings, tr: seq<Op>, g: nat, k: nat, email: string)
    requires k <= |tr|
  {
    g < k && Issues(p, tr, g, email) && forall j | g < j < k :: !Issues(p, tr, j, email)
  }

  predicate AcceptedIn(p: Settings, tr: seq<Op>, from: nat, to: nat, email: string)
    requires from <= to <= |tr|
  {
    exists j | from <= j < to :: Accepts(p, tr, j, email)
  }

  /** Tries for the address with another code, in a stretch of the trace. */
  function WrongTries(tr: seq<Op>, from: nat, to: nat, email: string, code: string): nat
    requires from <= to <= |tr|
  {
    if from == to then 0
    else
      WrongTries(tr, from, to - 1, email, code)
      + (if tr[to - 1].Verify? && tr[to - 1].email == email && tr[to - 1].code != code then 1 else 0)
  }

  /**
   In the stretch after g the code handed out there was found expired: by a clean-up, or by a try
   for the address.
   */
  predicate FoundExpired(p: Settings, tr: seq<Op>, g: nat, k: nat, email: string)
    requires g < k <= |tr|
  {
    exists j | g < j < k :: tr[j].now > tr[g].now + p.ttl && (tr[j].Cleanup? || (tr[j].Verify? && tr[j].email == email))
  }

  /** The code handed out at g has been neither accepted, nor given up after wrong tries, nor found expired. */
  predicate StillGood(p: Settings, tr: seq<Op>, g: nat, k: nat, email: string)
    requires g < k <= |tr| && Issues(p, tr, g, email)
  {
    && !AcceptedIn(p, tr, g + 1, k, email)
    && WrongTries(tr, g + 1, k, email, tr[g].random) < 5
    && !FoundExpired(p, tr, g, k, email)
  }

  predicate OnFile(p: Settings, tr: seq<Op>, g: nat, k: nat, email: string)
    requires k <= |tr|
  {
    Latest(p, tr, g, k, email) && StillGood(p, tr, g, k, email)
  }

  /** The entry the trace since g accounts for. */
  function EntryOf(p: Settings, tr: seq<Op>, g: nat, k: nat, email: string): CodeEntry
    requires k <= |tr| && OnFile(p, tr, g, k, email)
  {
    CodeEntry(tr[g].random, tr[g].now + p.ttl, tr[g].now, WrongTries(tr, g + 1, k, email, tr[g].random))
  }

  /** The entry on file is determined by the trace since the latest code. */
  lemma {:induction false} EntryFromTrace(p: Settings, tr: seq<Op>, k: nat, email: string) returns (g: nat)
    requires k <= |tr| && email in Before(p, tr, k)
    ensures OnFile(p, tr, g, k, email)
    ensures Before(p, tr, k)[email] == EntryOf(p, tr, g, k, email)
  {
    if Issues(p, tr, k - 1, email) {
      g := k - 1;
    } else {
      g := EntryFromTrace(p, tr, k - 1, email);
      assert Latest(p, tr, g, k, email);
      assert !Accepts(p, tr, k - 1, email);
    }
  }

  lemma LatestIsUnique(p: Settings, tr: seq<Op>, g: nat, h: nat, k: nat, email: string)
    requires k <= |tr| && Latest(p, tr, g, k, email) && Latest(p, tr, h, k, email)
    ensures g == h
  {
  }

  /** The latest code leaves the table only by being accepted, by too many wrong tries, or by being found expired. */
  lemma {:induction false} GoneForAReason(p: Settings, tr: seq<Op>, g: nat, k: nat, email: string)
    requires k <= |tr| && Latest(p, tr, g, k, email)
    requires email !in Before(p, tr, k)
    ensures !StillGood(p, tr, g, k, email)
  {
    assert k > g + 1;
    if email !in Before(p, tr, k - 1) {
      GoneForAReason(p, tr, g, k - 1, email);
      assert FoundExpired(p, tr, g, k - 1, email) ==> FoundExpired(p, tr, g, k, email);
      assert AcceptedIn(p, tr, g + 1, k - 1, email) ==> AcceptedIn(p, tr, g + 1, k, email);
    } else {
      var h := EntryFromTrace(p, tr, k - 1, email);
      LatestIsUnique(p, tr, g, h, k - 1, email);
      if Accepts(p, tr, k - 1, email) {
        assert AcceptedIn(p, tr, g + 1, k, email);
      }
    }
  }

  /** An entry is stored exactly when the latest code handed out for the address is still good. */
  lemma OnFileExactly(p: Settings, tr: seq<Op>, k: nat, email: string)
    requires k <= |tr|
    ensures email in Before(p, tr, k) <==> exists g: nat :: OnFile(p, tr, g, k, email)
  {
    if email in Before(p, tr, k) {
      var g := EntryFromTrace(p, tr, k, email);
    } else {
      forall g: nat | Latest(p, tr, g, k, email)
        ensures !StillGood(p, tr, g, k, email)
      {
        GoneForAReason(p, tr, g, k, email);
      }
    }
  }

  lemma OnFileEntry(p: Settings, tr: seq<Op>, g: nat, k: nat, email: string)
    requires k <= |tr| && OnFile(p, tr, g, k, email)
    ensures email in Before(p, tr, k) && Before(p, tr, k)[email] == EntryOf(p, tr, g, k, email)
  {
    OnFileExactly(p, tr, k, email);
    var h := EntryFromTrace(p, tr, k, email);
    LatestIsUnique(p, tr, g, h, k, email);
  }

  /**
   Acceptance, exactly: the code is the latest one handed out for the address and still good, and
   its time has not passed.
   */
  lemma AcceptedExactly(p: Settings, tr: seq<Op>, v: nat)
    requires v < |tr| && tr[v].Verify?
    ensures Accepts(p, tr, v, tr[v].email) <==>
      exists g: nat :: OnFile(p, tr, g, v, tr[v].email) && tr[g].random == tr[v].code && tr[v].now <= tr[g].now + p.ttl
  {
    var email := tr[v].email;
    OnFileExactly(p, tr, v, email);
    forall g: nat | OnFile(p, tr, g, v, email)
      ensures Before(p, tr, v)[email] == EntryOf(p, tr, g, v, email)
    {
      OnFileEntry(p, tr, g, v, email);
    }
  }

  /**
   When the clock does not go back, clean-ups do not matter: the latest code handed out is accepted
   exactly in time, if it has not been accepted before, after fewer than five wrong tries.
   */
  lemma AcceptedInTime(p: Settings, tr: seq<Op>, g: nat, v: nat)
    requires Monotone(tr) && v < |tr| && tr[v].Verify? && Latest(p, tr, g, v, tr[v].email)
    ensures Accepts(p, tr, v, tr[v].email) <==>
      && tr[g].random == tr[v].code && tr[v].now <= tr[g].now + p.ttl
      && !AcceptedIn(p, tr, g + 1, v, tr[v].email)
      && WrongTries(tr, g + 1, v, tr[v].email, tr[g].random) < 5
  {
    var email := tr[v].email;
    AcceptedExactly(p, tr, v);
    if Accepts(p, tr, v, email) {
      var h: nat :| OnFile(p, tr, h, v, email) && tr[h].random == tr[v].code && tr[v].now <= tr[h].now + p.ttl;
      LatestIsUnique(p, tr, g, h, v, email);
    } else if tr[v].now <= tr[g].now + p.ttl {
      assert !FoundExpired(p, tr, g, v, email);
    }
  }

  /** No code handed out is accepted twice. */
  lemma AcceptedOnce(p: Settings, tr: seq<Op>, g: nat, v: nat, w: nat, email: string)
    requires v < w < |tr|
    requires Latest(p, tr, g, v, email) && Accepts(p, tr, v, email)
    requires Accepts(p, tr, w, email)
    ensures !Latest(p, tr, g, w, email)
  {
    AcceptedExactly(p, tr, w);
    var h: nat :| OnFile(p, tr, h, w, email);
    if Latest(p, tr, g, w, email) {
      LatestIsUnique(p, tr, g, h, w, email);
      assert false;
    }
  }

  /** A code is refused exactly when the latest one handed out is still good and lies less than the cooldown back. */
  lemma CooldownExactly(p: Settings, tr: seq<Op>, k: nat, email: string)
    requires k < |tr| && tr[k].Generate? && tr[k].email == email
    ensures !Issues(p, tr, k, email) <==> exists g: nat :: OnFile(p, tr, g, k, email) && tr[k].now - tr[g].now < p.cool
  {
    OnFileExactly(p, tr, k, email);
    forall g: nat | OnFile(p, tr, g, k, email)
      ensures Before(p, tr, k)[email] == EntryOf(p, tr, g, k, email)
    {
      OnFileEntry(p, tr, g, k, email);
    }
  }
}
