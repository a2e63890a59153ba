/** The static category taxonomy of the scraper: the search presets, the
    provider-type to category table, the per-category exclusion sets, and
    the classification rules built on them (first matching type tag wins;
    a place is dropped as a mismatch only when it carries an excluded tag
    and no tag that legitimately belongs to the requested category).

    Each Python dict literal becomes a function that matches on its key;
    a key outside the table falls through to the `None` / empty case. */
module Taxonomy {
  import opened Wrappers

  /** One search to run: the query text, the category label it assigns, and
      the optional provider type used for the follow-up nearby search. */
  datatype Descriptor = Descriptor(query: string, category: string, placeType: Option<string>)

  function Typed(query: string, category: string, placeType: string): Descriptor {
    Descriptor(query, category, Some(placeType))
  }

  function Untyped(query: string, category: string): Descriptor {
    Descriptor(query, category, None)
  }

  /** The ordered searches a preset key expands to, or `None` for a key
      that is not a preset. */
  function Preset(key: string): (r: Option<seq<Descriptor>>)
    ensures r.Some? ==> |r.value| > 0
  {
    match key
    case "restaurant" => Some([
      Typed("restaurant", "Restaurant", "restaurant"),
      Typed("cafe", "Restaurant", "cafe"),
      Typed("bar", "Restaurant", "bar")])
    case "coffee-shops" => Some([
      Typed("coffee shop", "Coffee Shops", "cafe"),
      Typed("cafe", "Coffee Shops", "cafe")])
    case "hotel" => Some([
      Typed("hotel", "Hotel", "lodging"),
      Untyped("resort", "Hotel")])
    case "guest-house" => Some([
      Untyped("guest house", "Guest House"),
      Untyped("homestay", "Guest House"),
      Untyped("hostel", "Guest House"),
      Untyped("villa", "Guest House"),
      Untyped("bungalow", "Guest House")])
    case "things-to-do" => Some([
      Untyped("things to do", "Things To Do"),
      Typed("tourist attraction", "Things To Do", "tourist_attraction")])
    case "nightlife" => Some([
      Typed("nightclub", "Nightlife", "night_club"),
      Typed("bar", "Nightlife", "bar"),
      Untyped("lounge", "Nightlife")])
    case "spa-beauty" => Some([
      Typed("spa", "Spa & Beauty", "spa"),
      Typed("beauty salon", "Spa & Beauty", "beauty_salon"),
      Typed("hair salon", "Spa & Beauty", "hair_care")])
    case "gym-fitness" => Some([
      Typed("gym", "Gym & Fitness", "gym"),
      Untyped("fitness center", "Gym & Fitness")])
    case "shopping" => Some([
      Typed("shopping", "Shopping", "shopping_mall"),
      Untyped("market", "Shopping"),
      Typed("store", "Shopping", "store")])
    case "health" => Some([
      Typed("hospital", "Health & Medical", "hospital"),
      Untyped("clinic", "Health & Medical"),
      Typed("pharmacy", "Health & Medical", "pharmacy")])
    case "real-estate" => Some([
      Typed("real estate agency", "Real Estate", "real_estate_agency"),
      Typed("real estate agent", "Real Estate", "real_estate_agency"),
      Untyped("property management", "Real Estate")])
    case "coworking" => Some([
      Untyped("coworking space", "Coworking"),
      Untyped("coworking", "Coworking")])
    case "dentist" => Some([
      Typed("dentist", "Dentist", "dentist"),
      Typed("dental clinic", "Dentist", "dentist")])
    case "veterinary" => Some([
      Typed("veterinarian", "Veterinary", "veterinary_care"),
      Typed("animal hospital", "Veterinary", "veterinary_care")])
    case "car-services" => Some([
      Typed("car repair", "Car Services", "car_repair"),
      Typed("car wash", "Car Services", "car_wash"),
      Typed("car rental", "Car Services", "car_rental")])
    case "supermarket" => Some([
      Typed("supermarket", "Supermarket", "supermarket"),
      Typed("grocery store", "Supermarket", "convenience_store")])
    case "bank" => Some([
      Typed("bank", "Bank & ATM", "bank"),
      Typed("atm", "Bank & ATM", "atm")])
    case "pharmacy" => Some([
      Typed("pharmacy", "Pharmacy", "pharmacy"),
      Untyped("drugstore", "Pharmacy")])
    case "education" => Some([
      Typed("school", "School & Education", "school"),
      Typed("university", "School & Education", "university"),
      Untyped("language school", "School & Education")])
    case "yoga-pilates" => Some([
      Untyped("yoga studio", "Yoga & Pilates"),
      Untyped("pilates studio", "Yoga & Pilates")])
    case "laundry" => Some([
      Typed("laundry", "Laundry", "laundry"),
      Untyped("dry cleaning", "Laundry")])
    case "pet-store" => Some([
      Typed("pet store", "Pet Store", "pet_store"),
      Typed("pet shop", "Pet Store", "pet_store")])
    case "electronics" => Some([
      Typed("electronics store", "Electronics", "electronics_store"),
      Untyped("phone repair", "Electronics")])
    case "furniture-home" => Some([
      Typed("furniture store", "Furniture & Home", "furniture_store"),
      Typed("home goods store", "Furniture & Home", "home_goods_store")])
    case "travel-agency" => Some([
      Typed("travel agency", "Travel Agency", "travel_agency"),
      Untyped("tour operator", "Travel Agency")])
    case "barbershop" => Some([
      Typed("barbershop", "Barbershop", "hair_care"),
      Typed("barber", "Barbershop", "hair_care")])
    case "physiotherapy" => Some([
      Typed("physiotherapist", "Physiotherapy", "physiotherapist"),
      Typed("physical therapy", "Physiotherapy", "physiotherapist")])
    case _ => None
  }

  /** The category label a provider place type implies, when the type has
      an entry in the table. */
  function CategoryOfType(placeType: string): Option<string> {
    match placeType
    case "restaurant" => Some("Restaurant")
    case "cafe" => Some("Restaurant")
    case "bar" => Some("Restaurant")
    case "food" => Some("Restaurant")
    case "bakery" => Some("Restaurant")
    case "meal_delivery" => Some("Restaurant")
    case "meal_takeaway" => Some("Restaurant")
    case "tourist_attraction" => Some("Things To Do")
    case "amusement_park" => Some("Things To Do")
    case "aquarium" => Some("Things To Do")
    case "art_gallery" => Some("Things To Do")
    case "museum" => Some("Things To Do")
    case "park" => Some("Things To Do")
    case "zoo" => Some("Things To Do")
    case "spa" => Some("Spa & Beauty")
    case "beauty_salon" => Some("Spa & Beauty")
    case "hair_care" => Some("Spa & Beauty")
    case "lodging" => Some("Hotel")
    case "night_club" => Some("Nightlife")
    case "gym" => Some("Gym & Fitness")
    case "shopping_mall" => Some("Shopping")
    case "store" => Some("Shopping")
    case "clothing_store" => Some("Shopping")
    case "supermarket" => Some("Supermarket")
    case "convenience_store" => Some("Supermarket")
    case "hospital" => Some("Health & Medical")
    case "pharmacy" => Some("Pharmacy")
    case "doctor" => Some("Health & Medical")
    case "dentist" => Some("Dentist")
    case "health" => Some("Health & Medical")
    case "drugstore" => Some("Pharmacy")
    case "real_estate_agency" => Some("Real Estate")
    case "car_repair" => Some("Car Services")
    case "car_wash" => Some("Car Services")
    case "car_rental" => Some("Car Services")
    case "car_dealer" => Some("Car Services")
    case "bank" => Some("Bank & ATM")
    case "atm" => Some("Bank & ATM")
    case "school" => Some("School & Education")
    case "university" => Some("School & Education")
    case "primary_school" => Some("School & Education")
    case "secondary_school" => Some("School & Education")
    case "veterinary_care" => Some("Veterinary")
    case "laundry" => Some("Laundry")
    case "pet_store" => Some("Pet Store")
    case "electronics_store" => Some("Electronics")
    case "furniture_store" => Some("Furniture & Home")
    case "home_goods_store" => Some("Furniture & Home")
    case "travel_agency" => Some("Travel Agency")
    case "physiotherapist" => Some("Physiotherapy")
    case _ => None
  }

  /** Whether a category has an entry in the exclusion table. */
  predicate HasExcludeEntry(category: string) {
    match category
    case "Gym & Fitness" => true
    case "Spa & Beauty" => true
    case "Restaurant" => true
    case "Hotel" => true
    case "Guest House" => true
    case "Yoga & Pilates" => true
    case "Barbershop" => true
    case _ => false
  }

  /** `CATEGORY_EXCLUDE_TYPES.get(category, set())`: the provider types that
      disqualify a place found under `category`. */
  function ExcludeFor(category: string): (r: set<string>)
    ensures HasExcludeEntry(category) <==> r != {}
  {
    match category
    case "Gym & Fitness" => {"spa", "beauty_salon", "hair_care", "yoga_studio", "travel_agency", "lodging", "restaurant", "cafe", "bar", "food"}
    case "Spa & Beauty" => {"gym", "restaurant", "cafe", "bar", "food", "lodging"}
    case "Restaurant" => {"lodging", "gym", "spa"}
    case "Hotel" => {"restaurant", "cafe", "bar", "food", "gym", "spa"}
    case "Guest House" => {"restaurant", "cafe", "bar", "food", "gym", "spa"}
    case "Yoga & Pilates" => {"gym", "restaurant", "cafe", "bar", "lodging"}
    case "Barbershop" => {"spa", "beauty_salon", "restaurant", "cafe"}
    case _ => {}
  }

  /** Python's `any(t in s for t in tags)`. */
  function AnyIn(tags: seq<string>, s: set<string>): (r: bool)
    ensures r <==> exists i :: 0 <= i < |tags| && tags[i] in s
    decreases |tags|
  {
    if |tags| == 0 then false
    else tags[0] in s || AnyIn(tags[1..], s)
  }

  /** Membership in `_get_expected_types(category)`, the inverse image of the
      type table: the tag's entry in the table is `category`. */
  predicate IsExpectedType(tag: string, category: string) {
    CategoryOfType(tag) == Some(category)
  }

  /** Python's `any(t in requested for t in tags)` for the expected set. */
  function AnyExpected(tags: seq<string>, category: string): (r: bool)
    ensures r <==> exists i :: 0 <= i < |tags| && IsExpectedType(tags[i], category)
    decreases |tags|
  {
    if |tags| == 0 then false
    else IsExpectedType(tags[0], category) || AnyExpected(tags[1..], category)
  }

  /** True when no tag before position `i` has an entry in the type table. */
  ghost predicate UnmappedBefore(tags: seq<string>, i: nat)
    requires i <= |tags|
  {
    forall j :: 0 <= j < i ==> CategoryOfType(tags[j]).None?
  }

  /** The category of a place: the table entry of its first tag, in tag
      order, that has one; the discovery category when no tag has one. */
  function ResolveCategory(tags: seq<string>, fallback: string): (r: string)
    ensures UnmappedBefore(tags, |tags|) ==> r == fallback
    ensures forall i :: 0 <= i < |tags| && CategoryOfType(tags[i]).Some? && UnmappedBefore(tags, i) ==>
              r == CategoryOfType(tags[i]).value
    decreases |tags|
  {
    if |tags| == 0 then fallback
    else if CategoryOfType(tags[0]).Some? then CategoryOfType(tags[0]).value
    else
      var r := ResolveCategory(tags[1..], fallback);
      assert forall j :: 1 <= j <= |tags| ==> (UnmappedBefore(tags, j) <==> UnmappedBefore(tags[1..], j - 1)) by {
        forall j | 1 <= j <= |tags|
          ensures UnmappedBefore(tags, j) <==> UnmappedBefore(tags[1..], j - 1)
        {
          assert forall k :: 0 <= k < j - 1 ==> tags[1..][k] == tags[k + 1];
        }
      }
      assert forall i :: 1 <= i < |tags| ==> tags[i] == tags[1..][i - 1];
      r
  }

  /** The detail pass drops a place found under `category` exactly when the
      category has a non-empty exclusion set, some tag is excluded, and no
      tag maps to `category` in the type table. */
  function IsMismatch(category: string, tags: seq<string>): (r: bool)
    ensures r <==>
      && ExcludeFor(category) != {}
      && (exists i :: 0 <= i < |tags| && tags[i] in ExcludeFor(category))
      && (forall i :: 0 <= i < |tags| ==> CategoryOfType(tags[i]) != Some(category))
  {
    var excluded := ExcludeFor(category);
    if excluded != {} && AnyIn(tags, excluded) then
      !AnyExpected(tags, category)
    else
      false
  }

  /** "Guest House" and "Yoga & Pilates" have no tag of their own in the
      type table. */
  lemma NoExpectedTypes(tag: string)
    ensures !IsExpectedType(tag, "Guest House")
    ensures !IsExpectedType(tag, "Yoga & Pilates")
  {
  }

  /** Consequently any excluded tag drops a place found under either of
      those two categories. */
  lemma AnyExcludedTagDrops(category: string, tags: seq<string>)
    requires category == "Guest House" || category == "Yoga & Pilates"
    ensures IsMismatch(category, tags) <==> exists i :: 0 <= i < |tags| && tags[i] in ExcludeFor(category)
  {
    forall i | 0 <= i < |tags| ensures CategoryOfType(tags[i]) != Some(category) {
      NoExpectedTypes(tags[i]);
    }
  }

  /** A dropped place is kept once it also carries a tag of the requested
      category. */
  lemma ExpectedTagRescues(category: string, tags: seq<string>, extra: string)
    requires IsMismatch(category, tags)
    requires IsExpectedType(extra, category)
    ensures !IsMismatch(category, tags + [extra])
  {
    assert (tags + [extra])[|tags|] == extra;
  }

  /** A category without an exclusion entry never drops anything. */
  lemma NoExclusionKeeps(category: string, tags: seq<string>)
    requires !HasExcludeEntry(category)
    ensures !IsMismatch(category, tags)
  {
  }
}
