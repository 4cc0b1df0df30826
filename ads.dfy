/**
 * The ad gating policy (context/AdsProvider.tsx): the user's consent, the
 * ad-free flag and the per-placement switches, and whether a placement may
 * show an ad.
 */
module Ads {

  datatype AdPlacement = HomeBanner | ListNative | InterstitialScan

  datatype ConsentStatus = Unknown | Granted | Denied

  /** Every placement switched on. */
  const DefaultPlacements: map<AdPlacement, bool> := map[HomeBanner := true, ListNative := true, InterstitialScan := true]

  /**
   * `shouldShow(placement)`: never when ad-free, never when consent is
   * denied, and otherwise exactly the placement's switch (a placement with no
   * entry reads as off).
   */
  function ShouldShow(consent: ConsentStatus, isAdFree: bool, placements: map<AdPlacement, bool>, placement: AdPlacement): (r: bool)
    ensures isAdFree ==> !r
    ensures consent == Denied ==> !r
    ensures !isAdFree && consent != Denied ==> (r <==> placement in placements && placements[placement])
  {
    !isAdFree && (placement in placements && placements[placement]) && consent != Denied
  }

  class AdsProvider {
    var consent: ConsentStatus
    var isAdFree: bool
    var placements: map<AdPlacement, bool>

    /** Consent unknown, not ad-free, every placement on: every placement shows. */
    constructor ()
      ensures consent == Unknown && !isAdFree && placements == DefaultPlacements
      ensures forall p :: ShouldShow(consent, isAdFree, placements, p)
    {
      consent := Unknown;
      isAdFree := false;
      placements := DefaultPlacements;
      forall p {
        DefaultsShowEverywhere(p);
      }
    }

    method SetConsent(value: ConsentStatus)
      modifies this
      ensures consent == value && isAdFree == old(isAdFree) && placements == old(placements)
    {
      consent := value;
    }

    /** `enableAdFree(value)` sets the flag and nothing else. */
    method EnableAdFree(value: bool)
      modifies this
      ensures isAdFree == value && consent == old(consent) && placements == old(placements)
    {
      isAdFree := value;
    }

    /** `recordImpression(placement)`: a placement without an entry is switched on; one with an entry keeps it. */
    method RecordImpression(placement: AdPlacement)
      modifies this
      ensures placements == old(placements)[placement := if placement in old(placements) then old(placements)[placement] else true]
      ensures placement in old(placements) ==> placements == old(placements)
      ensures placement in placements
      ensures consent == old(consent) && isAdFree == old(isAdFree)
    {
      placements := placements[placement := if placement in placements then placements[placement] else true];
    }
  }

  /** Every placement has an entry in the defaults, so with unknown consent and no ad-free flag each one shows. */
  lemma DefaultsShowEverywhere(p: AdPlacement)
    ensures p in DefaultPlacements && DefaultPlacements[p]
    ensures ShouldShow(Unknown, false, DefaultPlacements, p)
  {
    match p
    case HomeBanner =>
    case ListNative =>
    case InterstitialScan =>
  }
}
