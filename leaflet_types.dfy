/** Value types borrowed from Leaflet. */
module LeafletTypes {
  /** `L.LatLng`: a point of the image-relative coordinate plane. */
  datatype LatLng = LatLng(lat: real, lng: real)
}
