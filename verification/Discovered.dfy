/**
 What one run of either discovery service appends, read off the store and the fetched page alone.
 */
module Discovered {
  import opened Wrappers
  import opened EventLog
  import opened Text
  import opened Discovery
  import Filings

  lemma EventsCons<D, E>(src: Source<D, E>, d: D, rest: seq<D>)
    ensures EventsOf(src, [d] + rest) == [src.event(d)] + EventsOf(src, rest)
  {
  }

  // ---- filings ----

  /** The store holds a filing of this company under this accession number. */
  ghost predicate Filed(log: seq<Record<FilingEvent>>, cik: string, accession: string) {
    exists r :: r in log && r.event.FilingDiscovered? && r.event.cik != "" && r.event.accession != ""
             && Filings.NormalizeCik(r.event.cik) == Filings.NormalizeCik(cik)
             && TrimSpace(r.event.accession) == TrimSpace(accession)
  }

  /** Each filing of the response that has an accession number, is not in the store, and has not
      come before in the response. */
  ghost function NewFilings(log: seq<Record<FilingEvent>>, cik: string, accessions: seq<string>, before: set<string>)
    : seq<FilingEvent>
  {
    if accessions == [] then []
    else
      var t := TrimSpace(accessions[0]);
      if t == "" then NewFilings(log, cik, accessions[1..], before)
      else
        (if t in before || Filed(log, cik, t) then [] else [FilingDiscovered(Filings.NormalizeCik(cik), t)])
        + NewFilings(log, cik, accessions[1..], before + {t})
  }

  /** An identity is seen exactly when the store holds such a filing. */
  lemma SeenIffFiled(log: seq<Record<FilingEvent>>, cik: string, accession: string)
    ensures Filings.FilingIdentity(cik, accession) in Keys(FilingFeed(), log) <==> Filed(log, cik, accession)
  {
    KeysOf(FilingFeed(), log);
    forall r | r in log && r.event.FilingDiscovered?
      ensures Filings.FilingIdentity(r.event.cik, r.event.accession) == Filings.FilingIdentity(cik, accession)
         <==> Filings.NormalizeCik(r.event.cik) == Filings.NormalizeCik(cik)
              && TrimSpace(r.event.accession) == TrimSpace(accession)
    {
      Filings.IdentityIff(r.event.cik, r.event.accession, cik, accession);
    }
    if Filed(log, cik, accession) {
      var r :| r in log && r.event.FilingDiscovered? && r.event.cik != "" && r.event.accession != ""
             && Filings.NormalizeCik(r.event.cik) == Filings.NormalizeCik(cik)
             && TrimSpace(r.event.accession) == TrimSpace(accession);
      assert FilingFeed().key(r.event) == Some(Filings.FilingIdentity(cik, accession));
    }
  }

  /** The identities seen part-way through a response. */
  ghost predicate SeenSoFar(log: seq<Record<FilingEvent>>, cik: string, before: set<string>, seen: set<string>) {
    forall a {:trigger Filings.FilingIdentity(cik, a)} ::
      Filings.FilingIdentity(cik, a) in seen <==> Filed(log, cik, a) || TrimSpace(a) in before
  }

  lemma SeenNext(log: seq<Record<FilingEvent>>, cik: string, before: set<string>, seen: set<string>, t: string)
    requires SeenSoFar(log, cik, before, seen) && TrimSpace(t) == t
    ensures SeenSoFar(log, cik, before + {t}, seen + {Filings.FilingIdentity(cik, t)})
  {
    forall a {:trigger Filings.FilingIdentity(cik, a)}
      ensures Filings.FilingIdentity(cik, a) in seen + {Filings.FilingIdentity(cik, t)}
         <==> Filed(log, cik, a) || TrimSpace(a) in before + {t}
    {
      Filings.IdentityIff(cik, a, cik, t);
    }
  }

  /** An accession number that changes nothing when it is added to those before it. */
  lemma SeenSame(log: seq<Record<FilingEvent>>, cik: string, before: set<string>, seen: set<string>, t: string)
    requires SeenSoFar(log, cik, before, seen) && TrimSpace(t) == t && Filings.FilingIdentity(cik, t) in seen
    ensures SeenSoFar(log, cik, before + {t}, seen)
  {
    SeenNext(log, cik, before, seen, t);
    assert seen + {Filings.FilingIdentity(cik, t)} == seen;
  }

  lemma {:induction false} FreshIsNew(
      log: seq<Record<FilingEvent>>, cik: string, accessions: seq<string>, before: set<string>, seen: set<string>)
    requires SeenSoFar(log, cik, before, seen)
    ensures EventsOf(FilingFeed(), Fresh(FilingFeed(), ParseFilings(cik, accessions), seen))
         == NewFilings(log, cik, accessions, before)
    decreases |accessions|
  {
    if accessions != [] {
      var t, rest := TrimSpace(accessions[0]), ParseFilings(cik, accessions[1..]);
      TrimTwice(accessions[0]);
      if t == "" {
        FreshIsNew(log, cik, accessions[1..], before, seen);
        assert ParseFilings(cik, accessions) == [] + rest == rest;
      } else {
        var f := Filing(Filings.NormalizeCik(cik), t);
        Filings.NormalTwice(cik);
        Filings.IdentityIff(f.cik, t, cik, t);
        var items := [f] + rest;
        assert items[1..] == rest && ParseFilings(cik, accessions) == items;
        assert Filings.FilingIdentity(cik, t) in seen <==> Filed(log, cik, t) || t in before;
        if Filings.FilingIdentity(cik, t) in seen {
          SeenSame(log, cik, before, seen, t);
          FreshIsNew(log, cik, accessions[1..], before + {t}, seen);
        } else {
          var more := seen + {Filings.FilingIdentity(cik, t)};
          SeenNext(log, cik, before, seen, t);
          FreshIsNew(log, cik, accessions[1..], before + {t}, more);
          EventsCons(FilingFeed(), f, Fresh(FilingFeed(), rest, more));
        }
      }
    }
  }

  /** A run over a submissions response appends, in its order, exactly the filings that have an
      accession number and are not in the store, each once. */
  lemma NewFilingsAppended(log: seq<Record<FilingEvent>>, cik: string, accessions: seq<string>)
    ensures Ran(FilingFeed(), log, ParseFilings(cik, accessions)) == AppendAll(log, NewFilings(log, cik, accessions, {}))
  {
    forall a {:trigger Filings.FilingIdentity(cik, a)}
      ensures Filings.FilingIdentity(cik, a) in Keys(FilingFeed(), log) <==> Filed(log, cik, a)
    {
      SeenIffFiled(log, cik, a);
    }
    FreshIsNew(log, cik, accessions, {}, Keys(FilingFeed(), log));
  }

  // ---- press releases ----

  /** What a card is recorded under. */
  function NameOf(card: Card): string {
    if card.extracted != "" then card.extracted else card.url
  }

  /** The store holds a press release of this name. */
  ghost predicate Released(log: seq<Record<ReleaseEvent>>, name: string) {
    exists r :: r in log && r.event.PrDiscovered? && name != ""
             && (r.event.partitionKey == name || (r.event.partitionKey == "" && r.event.url == name))
  }

  ghost function NewReleases(log: seq<Record<ReleaseEvent>>, cards: seq<Card>, before: set<string>): seq<ReleaseEvent> {
    if cards == [] then []
    else
      var card := cards[0];
      if card.headline == "" || card.url == "" then NewReleases(log, cards[1..], before)
      else
        (if NameOf(card) in before || Released(log, NameOf(card)) then [] else [PrDiscovered(NameOf(card), card.url)])
        + NewReleases(log, cards[1..], before + {NameOf(card)})
  }

  lemma SeenIffReleased(log: seq<Record<ReleaseEvent>>, name: string)
    requires name != ""
    ensures name in Keys(PressReleases(), log) <==> Released(log, name)
  {
    KeysOf(PressReleases(), log);
    if Released(log, name) {
      var r :| r in log && r.event.PrDiscovered? && (r.event.partitionKey == name || (r.event.partitionKey == "" && r.event.url == name));
      assert PressReleases().key(r.event) == Some(name);
    }
  }

  lemma {:induction false} FreshIsNewRelease(log: seq<Record<ReleaseEvent>>, cards: seq<Card>, before: set<string>, seen: set<string>)
    requires forall name | name != "" :: name in seen <==> Released(log, name) || name in before
    ensures EventsOf(PressReleases(), Fresh(PressReleases(), Discover(cards), seen)) == NewReleases(log, cards, before)
    decreases |cards|
  {
    if cards != [] {
      var card, rest := cards[0], Discover(cards[1..]);
      if card.headline == "" || card.url == "" {
        FreshIsNewRelease(log, cards[1..], before, seen);
        assert Discover(cards) == [] + rest == rest;
      } else {
        var r := Release(NameOf(card), card.url);
        var items := [r] + rest;
        assert items[1..] == rest && Discover(cards) == items;
        if r.id in seen {
          FreshIsNewRelease(log, cards[1..], before + {r.id}, seen);
        } else {
          FreshIsNewRelease(log, cards[1..], before + {r.id}, seen + {r.id});
          EventsCons(PressReleases(), r, Fresh(PressReleases(), rest, seen + {r.id}));
        }
      }
    }
  }

  /** A run over a listing page appends, in its order, exactly the releases with a headline and a URL
      that are not in the store under their ID, or under their URL when they have none, each once. */
  lemma NewReleasesAppended(log: seq<Record<ReleaseEvent>>, cards: seq<Card>)
    ensures Ran(PressReleases(), log, Discover(cards)) == AppendAll(log, NewReleases(log, cards, {}))
  {
    forall name | name != ""
      ensures name in Keys(PressReleases(), log) <==> Released(log, name)
    {
      SeenIffReleased(log, name);
    }
    FreshIsNewRelease(log, cards, {}, Keys(PressReleases(), log));
  }
}
