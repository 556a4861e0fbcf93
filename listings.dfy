/** The listing record as the pages read it from the `listings` table, and the
    "includes" badge labels that the listing cards show. */
module Listings {
  import opened Wrappers
  import opened Text
  import Seqs

  /** `type`: whether the poster sells a bib or looks for one. */
  datatype Kind = Sell | Buy

  /** `price_mode`. */
  datatype PriceMode = Open | Hidden

  /** `status`. */
  datatype Status = Waiting | Matching | Matched | Completed | Cancelled

  datatype Listing = Listing(
    id: string,
    userId: string,
    eventId: string,
    kind: Kind,
    distance: Option<string>,
    includesBib: bool,
    bibGender: Option<string>,
    includesShirt: bool,
    shirtSize: Option<string>,
    includesFinisherShirt: bool,
    finisherShirtSize: Option<string>,
    includesMedal: bool,
    includesOther: Option<string>,
    priceMode: PriceMode,
    askingPrice: Option<int>,
    minPrice: Option<int>,
    meetupLocation: Option<string>,
    note: Option<string>,
    status: Status)

  /** A detail appended to a badge only when it is set: `${x ? ` ${x}` : ''}`. */
  function Suffix(detail: Option<string>, open: string, close: string): string
  {
    if Truthy(detail) then open + detail.value + close else ""
  }

  const BibWord: string := "บิบ"
  const ShirtWord: string := "เสื้อ"
  const FinisherWord: string := "Finisher"
  const MedalWord: string := "เหรียญ"

  /** The bib badge: the word for "bib", followed by ` (gender)` when the gender is set. */
  function BibLabel(l: Listing): string
  {
    BibWord + Suffix(l.bibGender, " (", ")")
  }

  /** The shirt badge: the word for "shirt", followed by ` size` when the size is set. */
  function ShirtLabel(l: Listing): string
  {
    ShirtWord + Suffix(l.shirtSize, " ", "")
  }

  /** The finisher-shirt badge: `Finisher`, followed by ` size` when the size is set. */
  function FinisherLabel(l: Listing): string
  {
    FinisherWord + Suffix(l.finisherShirtSize, " ", "")
  }

  /** The five item slots of a card in their fixed order, bib, shirt, finisher
      shirt, medal, other: a slot holds its badge when its flag is set. The
      other-item slot is used only where the card lists it (`withOther`). */
  function Slots(l: Listing, withOther: bool): (r: seq<Option<string>>)
    ensures |r| == 5
  {
    [ if l.includesBib then Some(BibLabel(l)) else None,
      if l.includesShirt then Some(ShirtLabel(l)) else None,
      if l.includesFinisherShirt then Some(FinisherLabel(l)) else None,
      if l.includesMedal then Some(MedalWord) else None,
      if withOther && Truthy(l.includesOther) then Some(l.includesOther.value) else None ]
  }

  /** The badge list a card shows: the present slots, in slot order. */
  function IncludesLabels(l: Listing, withOther: bool): seq<string>
  {
    Seqs.Present(Slots(l, withOther))
  }

  /** The badge list spelled out slot by slot. */
  lemma IncludesLabelsUnfold(l: Listing, withOther: bool)
    ensures IncludesLabels(l, withOther) ==
      (if l.includesBib then [BibLabel(l)] else [])
      + (if l.includesShirt then [ShirtLabel(l)] else [])
      + (if l.includesFinisherShirt then [FinisherLabel(l)] else [])
      + (if l.includesMedal then [MedalWord] else [])
      + (if withOther && Truthy(l.includesOther) then [l.includesOther.value] else [])
  {
    var s := Slots(l, withOther);
    assert s[..5] == s;
    assert s[..5][..4] == s[..4] && s[..4][..3] == s[..3] && s[..3][..2] == s[..2];
    assert s[..2][..1] == s[..1] && s[..1][..0] == s[..0] == [];
    assert Seqs.Present(s[..1]) == (if l.includesBib then [BibLabel(l)] else []);
    assert Seqs.Present(s[..2]) == Seqs.Present(s[..1]) + (if l.includesShirt then [ShirtLabel(l)] else []);
    assert Seqs.Present(s[..3]) == Seqs.Present(s[..2]) + (if l.includesFinisherShirt then [FinisherLabel(l)] else []);
    assert Seqs.Present(s[..4]) == Seqs.Present(s[..3]) + (if l.includesMedal then [MedalWord] else []);
  }

  /** The badge list has one entry per flag set, bib, shirt, finisher
      shirt and medal each with its own label. */
  lemma IncludesLabelsCount(l: Listing, withOther: bool)
    ensures |IncludesLabels(l, withOther)| ==
      (if l.includesBib then 1 else 0) + (if l.includesShirt then 1 else 0)
      + (if l.includesFinisherShirt then 1 else 0) + (if l.includesMedal then 1 else 0)
      + (if withOther && Truthy(l.includesOther) then 1 else 0)
  {
    var s := Slots(l, withOther);
    Seqs.PresentLength(s);
    assert s[..5] == s;
    assert s[..5][..4] == s[..4] && s[..4][..3] == s[..3] && s[..3][..2] == s[..2];
    assert s[..2][..1] == s[..1] && s[..1][..0] == s[..0] == [];
    assert Seqs.PresentCount(s[..1]) == (if l.includesBib then 1 else 0);
    assert Seqs.PresentCount(s[..2]) == Seqs.PresentCount(s[..1]) + (if l.includesShirt then 1 else 0);
    assert Seqs.PresentCount(s[..3]) == Seqs.PresentCount(s[..2]) + (if l.includesFinisherShirt then 1 else 0);
    assert Seqs.PresentCount(s[..4]) == Seqs.PresentCount(s[..3]) + (if l.includesMedal then 1 else 0);
  }

  /** Two shown slots `j < k` keep their order in the badge list: the label
      of each sits at the number of shown slots before it. */
  lemma IncludesLabelsOrder(l: Listing, withOther: bool, j: nat, k: nat)
    requires j < k < 5
    requires Slots(l, withOther)[j].Some? && Slots(l, withOther)[k].Some?
    ensures Seqs.PresentCount(Slots(l, withOther)[..j]) < Seqs.PresentCount(Slots(l, withOther)[..k]) < |IncludesLabels(l, withOther)|
    ensures IncludesLabels(l, withOther)[Seqs.PresentCount(Slots(l, withOther)[..j])] == Slots(l, withOther)[j].value
    ensures IncludesLabels(l, withOther)[Seqs.PresentCount(Slots(l, withOther)[..k])] == Slots(l, withOther)[k].value
  {
    Seqs.PresentOrder(Slots(l, withOther), j, k);
  }

  /** A set bib flag puts the bib badge first. */
  lemma BibLabelFirst(l: Listing, withOther: bool)
    requires l.includesBib
    ensures |IncludesLabels(l, withOther)| > 0 && IncludesLabels(l, withOther)[0] == BibLabel(l)
  {
    Seqs.PresentAt(Slots(l, withOther), 0);
  }

  /** The bib badge names the gender, in parentheses, exactly when one is set. */
  lemma BibLabelGender(l: Listing)
    ensures Truthy(l.bibGender) ==> BibLabel(l) == "บิบ (" + l.bibGender.value + ")"
    ensures !Truthy(l.bibGender) ==> BibLabel(l) == "บิบ"
  {
  }
}
