/** The recycling-facility card: the directions URL chosen from a map query,
    the colour set of the category pill, and the text the share button sends.
    JavaScript numbers stay abstract (`N`): what the card needs of them, their
    truthiness and two renderings, comes in a `NumberFormat`. */
module FacilityCard {
  import opened Optional
  import opened Text

  /** What the card needs of a JavaScript number: whether it is truthy
      (neither 0 nor NaN), `String(x)` and `x.toFixed(1)`. */
  datatype NumberFormat<!N> = NumberFormat(truthy: N -> bool, show: N -> string, fixed1: N -> string)

  /** `mapsQuery`: an address and coordinates, each possibly absent. */
  datatype Query<N> = Query(address: Option<string>, lat: Option<N>, lon: Option<N>)

  const GoogleMapsHome := "https://maps.google.com"
  const AppleMaps := "http://maps.apple.com/?"
  const GoogleSearch := "https://www.google.com/maps/search/?api=1&query="

  /** `typeof q.lat === "number" && typeof q.lon === "number"`. */
  predicate HasCoords<N>(q: Query<N>) {
    q.lat.Some? && q.lon.Some?
  }

  /** `if (q.address)`: a non-empty address. */
  predicate HasAddress<N>(q: Query<N>) {
    q.address.Some? && q.address.value != ""
  }

  /** `mapsUrl`: coordinates win over an address; each goes to Apple Maps on
      iOS (`Platform.select`, here `ios`) and to a Google Maps search
      elsewhere; without either, or without a query, the Google Maps home
      page. `encode` stands for `encodeURIComponent`. */
  function MapsUrl<N>(q: Option<Query<N>>, ios: bool, fmt: NumberFormat<N>, encode: string -> string): (url: string)
    ensures q.None? ==> url == GoogleMapsHome
    ensures q.Some? && HasCoords(q.value) ==>
      url == (if ios then AppleMaps + "ll=" else GoogleSearch) + fmt.show(q.value.lat.value) + "," + fmt.show(q.value.lon.value)
    ensures q.Some? && !HasCoords(q.value) && HasAddress(q.value) ==>
      url == (if ios then AppleMaps + "q=" else GoogleSearch) + encode(q.value.address.value)
    ensures q.Some? && !HasCoords(q.value) && !HasAddress(q.value) ==> url == GoogleMapsHome
  {
    if q.None? then GoogleMapsHome
    else
      var query := q.value;
      if HasCoords(query) then
        var coords := fmt.show(query.lat.value) + "," + fmt.show(query.lon.value);
        if ios then AppleMaps + "ll=" + coords else GoogleSearch + coords
      else if HasAddress(query) then
        var enc := encode(query.address.value);
        if ios then AppleMaps + "q=" + enc else GoogleSearch + enc
      else GoogleMapsHome
  }

  /** With both coordinates present the address plays no part. */
  lemma CoordinatesIgnoreAddress<N>(q: Query<N>, address: Option<string>, ios: bool, fmt: NumberFormat<N>, encode: string -> string)
    requires HasCoords(q)
    ensures MapsUrl(Some(q.(address := address)), ios, fmt, encode) == MapsUrl(Some(q), ios, fmt, encode)
  {
  }

  /** The home page is the answer exactly when there is nothing to search
      for: no query, or neither both coordinates nor a non-empty address;
      every other answer is an Apple Maps link on iOS and a Google search
      elsewhere. */
  lemma {:induction false} HomeOnlyWithoutTarget<N>(q: Option<Query<N>>, ios: bool, fmt: NumberFormat<N>, encode: string -> string)
    ensures var url := MapsUrl(q, ios, fmt, encode);
      && (url == GoogleMapsHome <==> q.None? || (!HasCoords(q.value) && !HasAddress(q.value)))
      && (url != GoogleMapsHome ==> if ios then StartsWith(url, AppleMaps) else StartsWith(url, GoogleSearch))
  {
    var url := MapsUrl(q, ios, fmt, encode);
    if q.Some? && (HasCoords(q.value) || HasAddress(q.value)) {
      var query := q.value;
      var rest := if HasCoords(query) then fmt.show(query.lat.value) + "," + fmt.show(query.lon.value)
                  else encode(query.address.value);
      var tag := if !ios then "" else if HasCoords(query) then "ll=" else "q=";
      var prefix := if ios then AppleMaps else GoogleSearch;
      assert url == prefix + (tag + rest);
      assert url[..|prefix|] == prefix;
      if ios {
        assert url[4] == AppleMaps[4] == ':';
      } else {
        assert url[8] == GoogleSearch[8] == 'w';
      }
      assert GoogleMapsHome[4] == 's' && GoogleMapsHome[8] == 'm';
    }
  }

  /** A pill's background, text and border colours. */
  datatype Palette = Palette(bg: string, text: string, border: string)

  const CategoryColors: map<string, Palette> := map[
    "recycling" := Palette("#E9FFF2", "#16A34A", "#22C55E"),
    "electronics" := Palette("#F8E9FF", "#A855F7", "#C084FC"),
    "hazardous" := Palette("#FFEAEA", "#EF4444", "#F87171"),
    "default" := Palette("#EEF2FF", "#4F46E5", "#818CF8")
  ]

  /** `category = "default"` when absent, then
      `CATEGORY_COLORS[category] || CATEGORY_COLORS.default`. */
  function ColorFor(category: Option<string>): (palette: Palette)
    ensures palette in CategoryColors.Values
    ensures category.None? ==> palette == CategoryColors["default"]
    ensures category.Some? && category.value in CategoryColors ==> palette == CategoryColors[category.value]
    ensures category.Some? && category.value !in CategoryColors ==> palette == CategoryColors["default"]
  {
    var key := category.GetOr("default");
    if key in CategoryColors then CategoryColors[key] else CategoryColors["default"]
  }

  /** The props of a card. */
  datatype Card<N> = Card(name: string, addressLine: string, distanceMiles: Option<N>, hours: Option<string>,
                          phone: Option<string>, accepts: Option<string>, category: Option<string>,
                          mapsQuery: Option<Query<N>>)

  /** `${value ? `${prefix}${value}\n` : ""}` for an optional string. */
  function Line(prefix: string, value: Option<string>): (line: string)
    ensures line == "" <==> value.None? || value.value == ""
    ensures line != "" ==>
      && |line| == |prefix| + |value.value| + 1
      && StartsWith(line, prefix) && EndsWith(line, "\n") && line[|prefix|..|line| - 1] == value.value
  {
    if value.Some? && value.value != "" then
      var line := prefix + value.value + "\n";
      assert line[|prefix|..|line| - 1] == value.value;
      line
    else ""
  }

  /** The distance line: `toFixed(1)` miles, only for a truthy distance. */
  function DistanceLine<N>(d: Option<N>, fmt: NumberFormat<N>): (line: string)
    ensures line == "" <==> d.None? || !fmt.truthy(d.value)
    ensures line != "" ==> EndsWith(line, " mi away\n") && StartsWith(line, fmt.fixed1(d.value))
  {
    if d.Some? && fmt.truthy(d.value) then fmt.fixed1(d.value) + " mi away\n" else ""
  }

  /** The optional lines of the share text, in the order distance, hours,
      phone, accepts. */
  function OptionalLines<N>(card: Card<N>, fmt: NumberFormat<N>): string {
    DistanceLine(card.distanceMiles, fmt) + Line("", card.hours) + Line("Phone: ", card.phone) + Line("Accepts: ", card.accepts)
  }

  /** `onShare`'s text: name and address line, the optional lines, then the
      directions URL. */
  function ShareText<N>(card: Card<N>, ios: bool, fmt: NumberFormat<N>, encode: string -> string): (text: string)
    ensures |text| == |card.name| + |card.addressLine| + 2 + |OptionalLines(card, fmt)| + |MapsUrl(card.mapsQuery, ios, fmt, encode)|
    ensures StartsWith(text, card.name + "\n" + card.addressLine + "\n")
    ensures EndsWith(text, MapsUrl(card.mapsQuery, ios, fmt, encode))
    ensures text[|card.name| + |card.addressLine| + 2..|text| - |MapsUrl(card.mapsQuery, ios, fmt, encode)|] == OptionalLines(card, fmt)
  {
    var head := card.name + "\n" + card.addressLine + "\n";
    var url := MapsUrl(card.mapsQuery, ios, fmt, encode);
    var text := head + OptionalLines(card, fmt) + url;
    assert text[..|head|] == head;
    assert text[|text| - |url|..] == url;
    assert text[|head|..|text| - |url|] == OptionalLines(card, fmt);
    text
  }

  /** An optional line is present exactly when its value is truthy: with
      none of them the share text is the two header lines and the URL. */
  lemma ShareTextWithoutOptionals<N>(card: Card<N>, ios: bool, fmt: NumberFormat<N>, encode: string -> string)
    requires card.distanceMiles.None? || !fmt.truthy(card.distanceMiles.value)
    requires card.hours.None? || card.hours.value == ""
    requires card.phone.None? || card.phone.value == ""
    requires card.accepts.None? || card.accepts.value == ""
    ensures ShareText(card, ios, fmt, encode) == card.name + "\n" + card.addressLine + "\n" + MapsUrl(card.mapsQuery, ios, fmt, encode)
  {
    assert OptionalLines(card, fmt) == "";
  }

  /** A phone line shows in the share text exactly when the phone is
      non-empty, after the distance and hours lines and before the accepts
      line. */
  lemma PhoneLineOrder<N>(card: Card<N>, fmt: NumberFormat<N>)
    ensures var lines := OptionalLines(card, fmt);
      var before := DistanceLine(card.distanceMiles, fmt) + Line("", card.hours);
      && StartsWith(lines, before)
      && (card.phone.Some? && card.phone.value != "" ==>
            lines[|before|..|before| + |card.phone.value| + 8] == "Phone: " + card.phone.value + "\n")
      && EndsWith(lines, Line("Accepts: ", card.accepts))
  {
    var before := DistanceLine(card.distanceMiles, fmt) + Line("", card.hours);
    var lines := OptionalLines(card, fmt);
    assert lines == before + Line("Phone: ", card.phone) + Line("Accepts: ", card.accepts);
    assert lines[..|before|] == before;
    if card.phone.Some? && card.phone.value != "" {
      assert Line("Phone: ", card.phone) == "Phone: " + card.phone.value + "\n";
    }
  }
}
