/** The land objects the client pages build from a record read off the chain. */
module LandViews {
  import opened Registry

  /** `{ id, plotNumber, area, district, city, state, areaSqYd, owner }` */
  datatype LandView = LandView(
    id: nat,
    plotNumber: string, area: string, district: string, city: string, state: string,
    areaSqYd: nat,
    owner: Identity)

  /** The view of land `id`: its id, its parcel's five texts, its size and its owner. */
  function ViewOf(id: nat, l: Land): (r: LandView)
    ensures r.id == id && r.owner == l.owner && r.areaSqYd == l.areaSqYd
    ensures ParcelKey(r.plotNumber, r.area, r.district, r.city, r.state) == KeyOf(l)
  {
    LandView(id, l.plotNumber, l.area, l.district, l.city, l.state, l.areaSqYd, l.owner)
  }
}
