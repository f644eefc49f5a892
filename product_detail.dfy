/** The listing page: the sold-out test, the seller's other listings, the chat-with-seller
    guard and the picture gallery. */
module ProductDetail {
  import opened Wrappers
  import opened Seqs
  import opened Catalog

  /** Sold out by status, or by a stock of exactly zero. */
  predicate IsSoldOut(p: Product) {
    p.status == SoldOut || p.stock == 0
  }

  /** An available listing with positive stock is not sold out, and neither is one whose stock is
      negative: only zero counts. */
  lemma SoldOutCases(p: Product)
    ensures p.status == Available && p.stock != 0 ==> !IsSoldOut(p)
    ensures p.status == SoldOut ==> IsSoldOut(p)
    ensures p.stock == 0 ==> IsSoldOut(p)
  {
  }

  function SameSellerOf(product: Product): Product -> bool {
    (p: Product) => p.sellerPhone == product.sellerPhone && p.id != product.id
  }

  /** The seller's other listings: same phone, different id, in catalog order. */
  function SameSellerProducts(product: Product, allProducts: seq<Product>): (r: seq<Product>)
    ensures IsSubseq(r, allProducts)
    ensures forall i :: 0 <= i < |r| ==>
      r[i] in allProducts && r[i].sellerPhone == product.sellerPhone && r[i].id != product.id
    ensures product !in r
    ensures forall i :: 0 <= i < |allProducts| ==>
      (allProducts[i].sellerPhone == product.sellerPhone && allProducts[i].id != product.id ==> allProducts[i] in r)
  {
    var r := Filter(allProducts, SameSellerOf(product));
    assert forall i :: 0 <= i < |r| ==> SameSellerOf(product)(r[i]);
    r
  }

  /** The chat link: nothing for a sold-out listing, otherwise the seller's WhatsApp address
      (the prefilled message is not modelled). */
  function ChatSellerLink(p: Product): (link: Option<string>)
    ensures link.None? <==> IsSoldOut(p)
    ensures link.Some? ==> link.value == "https://wa.me/" + p.sellerPhone
  {
    if IsSoldOut(p) then None else Some("https://wa.me/" + p.sellerPhone)
  }

  // ---------------------------------------------------------------------------
  // The gallery

  /** The shown picture is the first one, or one that exists. */
  predicate ValidIndex(index: nat, images: seq<string>) {
    index == 0 || index < |images|
  }

  /** The index after the page is given another listing, as written: the page is re-rendered in
      place, so its state, and with it the index, survives. */
  function KeptIndex(index: nat, newImages: seq<string>): nat {
    index
  }

  /** The index after the page is given another listing, as intended: the gallery starts over. */
  function ResetIndex(index: nat, newImages: seq<string>): (r: nat)
    ensures ValidIndex(r, newImages)
  {
    0
  }

  /** Picking the third picture of a three-picture listing and then a one-picture listing from
      the seller's other listings leaves the gallery on a picture that does not exist. */
  lemma StaleIndexExample()
    ensures ValidIndex(2, ["a", "b", "c"])
    ensures KeptIndex(2, ["x"]) == 2 && !ValidIndex(KeptIndex(2, ["x"]), ["x"])
  {
  }

  class Gallery {
    var images: seq<string>
    var activeImageIndex: nat

    ghost predicate Valid()
      reads this
    {
      ValidIndex(activeImageIndex, images)
    }

    constructor(images: seq<string>)
      ensures this.images == images && activeImageIndex == 0
      ensures Valid()
    {
      this.images := images;
      activeImageIndex := 0;
    }

    /** A dot button: dots exist only when there are at least two pictures, one per picture, and
        pressing one shows its picture. Pressing where there is no dot changes nothing. */
    method SelectImage(idx: nat)
      modifies this
      ensures |old(images)| > 1 && idx < |old(images)| ==> activeImageIndex == idx
      ensures !(|old(images)| > 1 && idx < |old(images)|) ==> activeImageIndex == old(activeImageIndex)
      ensures images == old(images)
      ensures old(Valid()) ==> Valid()
    {
      if |images| > 1 && idx < |images| {
        activeImageIndex := idx;
      }
    }

    /** Another listing is opened from this page, as the page does it: the index is kept. */
    method ShowListingAsWritten(newImages: seq<string>)
      modifies this
      ensures images == newImages && activeImageIndex == KeptIndex(old(activeImageIndex), newImages)
    {
      activeImageIndex := KeptIndex(activeImageIndex, newImages);
      images := newImages;
    }

    /** Another listing is opened from this page, with the gallery starting over. */
    method ShowListing(newImages: seq<string>)
      modifies this
      ensures images == newImages && activeImageIndex == ResetIndex(old(activeImageIndex), newImages)
      ensures Valid()
    {
      activeImageIndex := ResetIndex(activeImageIndex, newImages);
      images := newImages;
    }
  }
}
