// The family of refresh tokens of one login: each refresh consumes one token and
// issues the next, and a token that comes back is taken for a stolen one.
module RefreshTokenFamily {
  import opened Optional

  datatype Status = Active | Compromised | Revoked

  // A token as issued, and as recorded.
  datatype Token = Token(jti: string, hash: string, expiresAt: int)
  datatype Record = Record(token: Token, consumedAt: Option<int>, revokedAt: Option<int>, revokedReason: Option<string>)

  datatype Family = Family(status: Status, tokens: map<string, Record>, revocations: seq<string>)

  const REFRESH_REUSE := "REFRESH_REUSE"

  function Issued(t: Token): Record { Record(t, None, None, None) }

  function Start(first: Token): Family { Family(Active, map[first.hash := Issued(first)], []) }

  predicate Spent(r: Record) { r.consumedAt.Some? || r.revokedAt.Some? }

  function RevokeAll(f: Family, status: Status, reason: string, now: int): Family {
    Family(status,
           map hash | hash in f.tokens :: f.tokens[hash].(revokedAt := Some(now), revokedReason := Some(reason)),
           f.revocations + [reason])
  }

  function Compromise(f: Family, now: int): Family { RevokeAll(f, Compromised, REFRESH_REUSE, now) }

  predicate Rotates(f: Family, presented: string) { presented in f.tokens && !Spent(f.tokens[presented]) }

  function Consume(f: Family, presented: string, next: Token, now: int): Family {
    if Rotates(f, presented) then
      f.(tokens := f.tokens[presented := f.tokens[presented].(consumedAt := Some(now))][next.hash := Issued(next)])
    else Compromise(f, now)
  }

  // ----- runs -----

  datatype Op = DoConsume(presented: string, next: Token) | DoCompromise | DoRevoke(reason: string)

  datatype Event = Event(op: Op, now: int)

  function Apply(f: Family, e: Event): Family {
    match e.op
    case DoConsume(presented, next) => Consume(f, presented, next, e.now)
    case DoCompromise => Compromise(f, e.now)
    case DoRevoke(reason) => RevokeAll(f, Revoked, reason, e.now)
  }

  function Run(first: Token, events: seq<Event>, n: nat): Family
    requires n <= |events|
  {
    if n == 0 then Start(first) else Apply(Run(first, events, n - 1), events[n - 1])
  }

  // The hash issued last.
  function LastIssued(first: Token, events: seq<Event>, n: nat): string
    requires n <= |events|
  {
    if n == 0 then first.hash
    else if events[n - 1].op.DoConsume? && Rotates(Run(first, events, n - 1), events[n - 1].op.presented)
    then events[n - 1].op.next.hash
    else LastIssued(first, events, n - 1)
  }

  // The tokens that are neither consumed nor revoked.
  ghost function Unspent(f: Family): set<string> {
    set hash | hash in f.tokens && !Spent(f.tokens[hash])
  }

  // An active family has exactly one unspent token, and any other none.
  ghost predicate Sound(f: Family, last: string) {
    && Unspent(f) == (if f.status.Active? then {last} else {})
    && (!f.status.Active? ==> forall hash :: hash in f.tokens ==> f.tokens[hash].revokedAt.Some?)
    && (forall hash :: hash in f.tokens ==> f.tokens[hash].token.hash == hash)
  }

  lemma RevokeAllSound(f: Family, status: Status, reason: string, now: int, last: string)
    requires Sound(f, last) && !status.Active?
    ensures Sound(RevokeAll(f, status, reason, now), last)
  {
    assert Unspent(RevokeAll(f, status, reason, now)) == {};
  }

  lemma RotationSound(f: Family, presented: string, next: Token, now: int, last: string)
    requires Sound(f, last) && Rotates(f, presented)
    ensures presented == last && f.status.Active?
    ensures Sound(Consume(f, presented, next, now), next.hash)
  {
    var q := Consume(f, presented, next, now);
    assert presented in Unspent(f);
    forall hash | hash in q.tokens ensures !Spent(q.tokens[hash]) <==> hash == next.hash {
      if hash in f.tokens && hash != presented && hash != next.hash {
        assert hash !in Unspent(f);
      }
    }
    assert next.hash in q.tokens;
  }

  lemma ApplySound(f: Family, e: Event, last: string)
    requires Sound(f, last)
    ensures Sound(Apply(f, e), if e.op.DoConsume? && Rotates(f, e.op.presented) then e.op.next.hash else last)
  {
    hide Sound, Consume, RevokeAll, Rotates;
    match e.op
    case DoConsume(presented, next) =>
      if Rotates(f, presented) {
        RotationSound(f, presented, next, e.now, last);
      } else {
        ConsumeRefuses(f, presented, next, e.now);
        RevokeAllSound(f, Compromised, REFRESH_REUSE, e.now, last);
      }
    case DoCompromise => RevokeAllSound(f, Compromised, REFRESH_REUSE, e.now, last);
    case DoRevoke(reason) => RevokeAllSound(f, Revoked, reason, e.now, last);
  }

  lemma ConsumeRefuses(f: Family, presented: string, next: Token, now: int)
    requires !Rotates(f, presented)
    ensures Consume(f, presented, next, now) == RevokeAll(f, Compromised, REFRESH_REUSE, now)
  {
  }

  lemma {:induction false} RunSound(first: Token, events: seq<Event>, n: nat)
    requires n <= |events|
    ensures Sound(Run(first, events, n), LastIssued(first, events, n))
  {
    if n > 0 {
      hide Sound, Apply, Rotates;
      RunSound(first, events, n - 1);
      ApplySound(Run(first, events, n - 1), events[n - 1], LastIssued(first, events, n - 1));
    } else {
      assert Run(first, events, n) == Start(first);
      assert Unspent(Start(first)) == {first.hash};
    }
  }

  // In every run: an active family has exactly one token that is neither consumed
  // nor revoked, the one issued last; in any other family every token is revoked.
  lemma OneUnspentToken(first: Token, events: seq<Event>, n: nat)
    requires n <= |events|
    ensures var f := Run(first, events, n);
            && (f.status.Active? ==> |Unspent(f)| == 1 && Unspent(f) == {LastIssued(first, events, n)})
            && (!f.status.Active? ==> forall hash :: hash in f.tokens ==> f.tokens[hash].revokedAt.Some?)
  {
    RunSound(first, events, n);
  }

  // In every run a presented token rotates just when the family is active and it
  // is the one issued last; whatever else is presented, consumed or unknown,
  // revokes every token.
  lemma RotatesExactly(first: Token, events: seq<Event>, n: nat, presented: string, next: Token, now: int)
    requires n <= |events|
    ensures var f := Run(first, events, n);
            && (Rotates(f, presented) <==> f.status.Active? && presented == LastIssued(first, events, n))
            && (!Rotates(f, presented) ==>
                  var q := Consume(f, presented, next, now);
                  && q.status.Compromised? && q.tokens.Keys == f.tokens.Keys
                  && (forall hash :: hash in q.tokens ==> q.tokens[hash].revokedAt == Some(now)))
  {
    RunSound(first, events, n);
    var f := Run(first, events, n);
    assert Rotates(f, presented) <==> presented in Unspent(f);
  }

  // From f to q a token was consumed and the next one recorded, unspent.
  ghost predicate Rotated(f: Family, q: Family, presented: string, next: Token, now: int) {
    && f.status == Active && presented in f.tokens
    && q == Family(Active, f.tokens[presented := f.tokens[presented].(consumedAt := Some(now))]
                                   [next.hash := Record(next, None, None, None)], f.revocations)
  }

  // From f to q every token was revoked for a reason, once announced.
  ghost predicate AllRevoked(f: Family, q: Family, status: Status, reason: string, now: int) {
    && q.status == status && q.revocations == f.revocations + [reason] && q.tokens.Keys == f.tokens.Keys
    && forall hash :: hash in f.tokens ==>
         q.tokens[hash] == f.tokens[hash].(revokedAt := Some(now), revokedReason := Some(reason))
  }

  // In every run, what the next event does to the family: a token rotates, or all
  // are revoked.
  lemma EventExactly(first: Token, events: seq<Event>, n: nat)
    requires n < |events|
    ensures var f, q, now := Run(first, events, n), Run(first, events, n + 1), events[n].now;
            match events[n].op
            case DoConsume(presented, next) =>
              if f.status == Active && presented == LastIssued(first, events, n)
              then Rotated(f, q, presented, next, now) else AllRevoked(f, q, Compromised, "REFRESH_REUSE", now)
            case DoCompromise => AllRevoked(f, q, Compromised, "REFRESH_REUSE", now)
            case DoRevoke(reason) => AllRevoked(f, q, Revoked, reason, now)
  {
    if events[n].op.DoConsume? {
      RotatesExactly(first, events, n, events[n].op.presented, events[n].op.next, events[n].now);
    }
  }

  // Once a family is not active it stays so, and nothing ever rotates again.
  lemma {:induction false} DeadForGood(first: Token, events: seq<Event>, i: nat, n: nat, presented: string)
    requires i <= n <= |events| && !Run(first, events, i).status.Active?
    ensures !Run(first, events, n).status.Active? && !Rotates(Run(first, events, n), presented)
    ensures Run(first, events, n).tokens.Keys == Run(first, events, i).tokens.Keys
    decreases n
  {
    RunSound(first, events, n);
    if i < n {
      var e := events[n - 1];
      DeadForGood(first, events, i, n - 1, if e.op.DoConsume? then e.op.presented else presented);
    }
    var f := Run(first, events, n);
    assert presented in Unspent(f) <==> Rotates(f, presented);
  }

  // ----- theft -----

  // The i-th event rotates a token.
  ghost predicate RotatedAt(first: Token, events: seq<Event>, i: nat)
    requires i < |events|
  {
    events[i].op.DoConsume? && Rotates(Run(first, events, i), events[i].op.presented)
  }

  // Among events from..n no hash is issued again.
  ghost predicate NotReissued(first: Token, events: seq<Event>, from: nat, n: nat, hash: string)
    requires n <= |events|
  {
    forall j :: from <= j < n && RotatedAt(first, events, j) ==> events[j].op.next.hash != hash
  }

  lemma {:induction false} LastIsNot(first: Token, events: seq<Event>, from: nat, n: nat, hash: string)
    requires from < n <= |events| && RotatedAt(first, events, from)
    requires NotReissued(first, events, from, n, hash)
    ensures LastIssued(first, events, n) != hash
    decreases n
  {
    if from + 1 < n {
      LastIsNot(first, events, from, n - 1, hash);
      assert RotatedAt(first, events, n - 1) ==> events[n - 1].op.next.hash != hash;
    }
  }

  // A token consumed once and not issued again is a theft signal for good: to
  // present it kills the family, the thief's token and the victim's alike, and
  // nothing that is presented afterwards rotates.
  lemma ReuseKills(first: Token, events: seq<Event>, i: nat, j: nat, n: nat, anything: string)
    requires i < j < n <= |events| && RotatedAt(first, events, i)
    requires events[j].op.DoConsume? && events[j].op.presented == events[i].op.presented
    requires NotReissued(first, events, i, j, events[i].op.presented)
    ensures Run(first, events, j + 1).status.Compromised?
    ensures !Run(first, events, n).status.Active? && !Rotates(Run(first, events, n), anything)
  {
    var presented := events[i].op.presented;
    LastIsNot(first, events, i, j, presented);
    RotatesExactly(first, events, j, presented, events[j].op.next, events[j].now);
    assert Run(first, events, j + 1) == Apply(Run(first, events, j), events[j]);
    DeadForGood(first, events, j + 1, n, anything);
  }

  // Freshness matters: a hash issued again makes its old holder the current one.
  // That is when, and only when, presenting a consumed token goes unnoticed.
  lemma ReuseUnnoticed(first: Token, events: seq<Event>, i: nat, n: nat)
    requires i < n <= |events| && RotatedAt(first, events, i) && Run(first, events, n).status.Active?
    ensures Rotates(Run(first, events, n), events[i].op.presented)
            <==> LastIssued(first, events, n) == events[i].op.presented
    ensures Rotates(Run(first, events, n), events[i].op.presented)
            ==> !NotReissued(first, events, i, n, events[i].op.presented)
  {
    var presented := events[i].op.presented;
    RotatesExactly(first, events, n, presented, first, 0);
    if NotReissued(first, events, i, n, presented) {
      LastIsNot(first, events, i, n, presented);
    }
  }

  // Such a run: the token consumed first is issued again by the second rotation,
  // and to present it then rotates once more.
  lemma ReissueUnnoticed(first: Token, second: Token) returns (events: seq<Event>)
    requires first.hash != second.hash
    ensures |events| == 3 && events[2].op.DoConsume? && events[2].op.presented == first.hash
    ensures RotatedAt(first, events, 0) && events[0].op.presented == first.hash
    ensures !NotReissued(first, events, 0, 2, first.hash)
    ensures RotatedAt(first, events, 2) && Run(first, events, 3).status.Active?
  {
    events := [Event(DoConsume(first.hash, second), 0), Event(DoConsume(second.hash, first), 1),
               Event(DoConsume(first.hash, second), 2)];
    var f0 := Run(first, events, 0);
    assert f0 == Start(first) && Rotates(f0, first.hash);
    var f1 := Run(first, events, 1);
    assert f1 == Consume(f0, first.hash, second, 0) && Rotates(f1, second.hash);
    var f2 := Run(first, events, 2);
    assert f2 == Consume(f1, second.hash, first, 1) && Rotates(f2, first.hash);
    assert Run(first, events, 3) == Consume(f2, first.hash, second, 2);
    assert RotatedAt(first, events, 1) && events[1].op.next.hash == first.hash;
  }

  // ----- the aggregate -----

  class Aggregate {
    var status: Status
    var tokens: map<string, Record>
    var revocations: seq<string>
    ghost var last: string

    ghost function View(): Family
      reads this
    {
      Family(status, tokens, revocations)
    }

    ghost predicate Valid()
      reads this
    {
      Sound(View(), last)
    }

    constructor (first: Token)
      ensures Valid() && View() == Start(first) && last == first.hash
    {
      status, revocations, last := Active, [], first.hash;
      tokens := map[first.hash := Issued(first)];
      new;
      RunSound(first, [], 0);
    }

    method RevokeTokens(reason: string, now: int)
      modifies this`tokens
      ensures tokens == RevokeAll(old(View()), Revoked, reason, now).tokens
    {
      var todo := tokens.Keys;
      while todo != {}
        invariant todo <= tokens.Keys == old(tokens).Keys
        invariant forall hash :: hash in tokens ==>
                    tokens[hash] == if hash in todo then old(tokens)[hash]
                                    else old(tokens)[hash].(revokedAt := Some(now), revokedReason := Some(reason))
        decreases |todo|
      {
        var hash :| hash in todo;
        tokens := tokens[hash := tokens[hash].(revokedAt := Some(now), revokedReason := Some(reason))];
        todo := todo - {hash};
      }
    }

    method CompromiseFamily(now: int)
      requires Valid()
      modifies this
      ensures Valid() && View() == Compromise(old(View()), now) && last == old(last)
    {
      RevokeAllSound(View(), Compromised, REFRESH_REUSE, now, last);
      status := Compromised;
      RevokeTokens(REFRESH_REUSE, now);
      revocations := revocations + [REFRESH_REUSE];
    }

    method RevokeFamily(reason: string, now: int)
      requires Valid()
      modifies this
      ensures Valid() && View() == RevokeAll(old(View()), Revoked, reason, now) && last == old(last)
    {
      RevokeAllSound(View(), Revoked, reason, now, last);
      status := Revoked;
      RevokeTokens(reason, now);
      revocations := revocations + [reason];
    }

    // The token to hand out; None is reuse.
    method ConsumeToken(presented: string, next: Token, now: int) returns (rotated: Option<Token>)
      requires Valid()
      modifies this
      ensures Valid() && View() == Consume(old(View()), presented, next, now)
      ensures rotated == if old(status).Active? && presented == old(last) then Some(next) else None
      ensures last == if rotated.Some? then next.hash else old(last)
    {
      assert Rotates(View(), presented) <==> presented in Unspent(View());
      if presented !in tokens {
        CompromiseFamily(now);
        return None;
      }
      if tokens[presented].consumedAt.Some? || tokens[presented].revokedAt.Some? {
        CompromiseFamily(now);
        return None;
      }
      RotationSound(View(), presented, next, now, last);
      tokens := tokens[presented := tokens[presented].(consumedAt := Some(now))];
      tokens := tokens[next.hash := Issued(next)];
      last := next.hash;
      rotated := Some(next);
    }
  }
}
