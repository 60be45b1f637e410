/** Where a complaint is: device GPS first, the typed address otherwise
    (`report_issue_endpoint`, app.py lines 700-722), and the reverse
    geocoding of device coordinates (`reverse_geocode_coordinates`). The
    geocoding service, `float()` and the `:.4f` formatting of a coordinate are
    parameters. Coordinates are reals; Python's truthiness of a float is
    "not zero". */
module Location {
  import opened Common
  import opened Text

  /** What one reverse-geocoding request produced: an address, no match,
      the service being unavailable, or any other exception. */
  datatype GeoReply = Found(address: string) | NoMatch | ServiceDown | GeoFailure

  /** The geocoding service and the `f"{x:.4f}"` formatting of a coordinate. */
  datatype Geocoder = Geocoder(reverse: (real, real) -> GeoReply, format4: real -> string)

  /** `reverse_geocode_coordinates(latitude, longitude)`: never raises; a
      failing service yields a message that embeds the coordinates. */
  function ReverseGeocode(lat: Option<real>, lng: Option<real>, geo: Geocoder): string {
    if lat.None? || lng.None? then "Location not available"
    else
      match geo.reverse(lat.value, lng.value)
      case Found(address) => address
      case NoMatch => "Could not determine address from coordinates via Nominatim."
      case ServiceDown =>
        "Geocoding service is temporarily down. Lat/Lng: (" + geo.format4(lat.value) + ", "
        + geo.format4(lng.value) + ")"
      case GeoFailure =>
        "Geocoding failed due to an error. Lat/Lng: (" + geo.format4(lat.value) + ", "
        + geo.format4(lng.value) + ")"
  }

  /** When the service fails, the string handed back still carries both
      formatted coordinates, so the complaint can be stored. */
  lemma DegradedGeocodingKeepsCoordinates(lat: real, lng: real, geo: Geocoder)
    requires geo.reverse(lat, lng) == ServiceDown || geo.reverse(lat, lng) == GeoFailure
    ensures var s := ReverseGeocode(Some(lat), Some(lng), geo);
      Contains(s, geo.format4(lat)) && Contains(s, geo.format4(lng))
  {
    var prefix := if geo.reverse(lat, lng) == ServiceDown
      then "Geocoding service is temporarily down. Lat/Lng: ("
      else "Geocoding failed due to an error. Lat/Lng: (";
    var x, y := geo.format4(lat), geo.format4(lng);
    var s := ReverseGeocode(Some(lat), Some(lng), geo);
    assert s == prefix + x + (", " + y + ")");
    ContainsInfix(prefix, x, ", " + y + ")");
    assert s == (prefix + x + ", ") + y + ")";
    ContainsInfix(prefix + x + ", ", y, ")");
  }

  /** The location fields of the intake form, as `request.form.get` gives
      them (`None` when absent). */
  datatype LocationForm = LocationForm(manualAddress: Option<string>, deviceLat: Option<string>,
                                       deviceLng: Option<string>)

  /** The outcome of location extraction: the location string and
      coordinates (with whether the geocoder was asked), no location source
      (HTTP 400), or a coordinate `float()` refused (an uncaught
      `ValueError`). */
  datatype Resolution =
    | Resolved(location: Option<string>, lat: Option<real>, lng: Option<real>, geocoded: bool)
    | NoLocation
    | BadCoordinate

  /** Python truthiness of an optional form field. */
  predicate Filled(v: Option<string>) {
    v.Some? && v.value != ""
  }

  /** Location extraction as the endpoint performs it: both device fields
      non-empty means GPS (parsed with `float()`), else a non-empty typed
      address, else failure; non-zero coordinates are then geocoded. */
  function ResolveLocation(form: LocationForm, parseFloat: string -> Option<real>, geo: Geocoder): Resolution {
    if Filled(form.deviceLat) && Filled(form.deviceLng) then
      match (parseFloat(form.deviceLat.value), parseFloat(form.deviceLng.value))
      case (Some(x), Some(y)) =>
        if x != 0.0 && y != 0.0 then Resolved(Some(ReverseGeocode(Some(x), Some(y), geo)), Some(x), Some(y), true)
        else Resolved(None, Some(x), Some(y), false)
      case _ => BadCoordinate
    else if Filled(form.manualAddress) then Resolved(Some(form.manualAddress.value), None, None, false)
    else NoLocation
  }

  /** Device GPS wins: the typed address plays no part, both coordinates are
      kept, and non-zero coordinates are turned into an address by the
      geocoder. */
  lemma DeviceGpsTakesPriority(form: LocationForm, parseFloat: string -> Option<real>, geo: Geocoder,
                               other: Option<string>, x: real, y: real)
    requires Filled(form.deviceLat) && Filled(form.deviceLng)
    requires parseFloat(form.deviceLat.value) == Some(x) && parseFloat(form.deviceLng.value) == Some(y)
    ensures ResolveLocation(form, parseFloat, geo) == ResolveLocation(form.(manualAddress := other), parseFloat, geo)
    ensures var r := ResolveLocation(form, parseFloat, geo);
      && r.Resolved? && r.lat == Some(x) && r.lng == Some(y)
      && (x != 0.0 && y != 0.0 ==> r.geocoded && r.location == Some(ReverseGeocode(Some(x), Some(y), geo)))
  {
  }

  /** A zero coordinate is falsy in `if final_lat and final_lng`, so no
      geocoding happens and the location string stays `None`. */
  lemma ZeroCoordinateLeavesNoLocation(form: LocationForm, parseFloat: string -> Option<real>, geo: Geocoder,
                                       x: real, y: real)
    requires Filled(form.deviceLat) && Filled(form.deviceLng)
    requires parseFloat(form.deviceLat.value) == Some(x) && parseFloat(form.deviceLng.value) == Some(y)
    requires x == 0.0 || y == 0.0
    ensures ResolveLocation(form, parseFloat, geo) == Resolved(None, Some(x), Some(y), false)
  {
  }

  /** Without both device fields, a typed address is the location and there
      are no coordinates; with neither source the request is refused. */
  lemma ManualAddressFallback(form: LocationForm, parseFloat: string -> Option<real>, geo: Geocoder)
    requires !(Filled(form.deviceLat) && Filled(form.deviceLng))
    ensures Filled(form.manualAddress) ==>
      ResolveLocation(form, parseFloat, geo) == Resolved(Some(form.manualAddress.value), None, None, false)
    ensures !Filled(form.manualAddress) ==> ResolveLocation(form, parseFloat, geo) == NoLocation
  {
  }

  /** Whatever the form, a resolved location has both coordinates or neither,
      has them exactly when both device fields were sent, is the typed
      address when it has none, and asked the geocoder only for non-zero
      coordinates. */
  lemma CoordinatesComeInPairs(form: LocationForm, parseFloat: string -> Option<real>, geo: Geocoder)
    ensures var r := ResolveLocation(form, parseFloat, geo);
      r.Resolved? ==>
        && (r.lat.Some? <==> r.lng.Some?)
        && (r.lat.Some? <==> Filled(form.deviceLat) && Filled(form.deviceLng))
        && (r.lat.None? ==> r.location.Some? && r.location == form.manualAddress)
        && (r.geocoded <==> (r.lat.Some? && r.lat.value != 0.0 && r.lng.value != 0.0))
        && (r.geocoded ==> r.location.Some?)
  {
  }
}
