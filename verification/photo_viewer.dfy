/** The submitted-photo gallery: the full page with station and category
    filters (src/components/PhotoViewerPage.tsx) and the dialog with a
    station filter only (src/components/PhotoViewerModal.tsx). Both declare
    the same submission record. */
module PhotoViewer {
  import opened Common
  import opened Seqs
  import opened App
  import Strings

  datatype Photo = Photo(
    id: string,
    employeeName: string,
    taskName: string,
    station: Station,
    category: Category,
    timestamp: string,
    date: string,
    imageUrl: string,
    verified: bool)

  /** `selectedStation`: `'all'` or one station. */
  datatype StationChoice = AnyStation | StationIs(station: Station)

  /** `selectedCategory`: `'all'` or one category. */
  datatype CategoryChoice = AnyCategory | CategoryIs(category: Category)

  function MatchesStation(sc: StationChoice, p: Photo): bool
  {
    sc == AnyStation || p.station == sc.station
  }

  function MatchesCategory(cc: CategoryChoice, p: Photo): bool
  {
    cc == AnyCategory || p.category == cc.category
  }

  function Matches(sc: StationChoice, cc: CategoryChoice): Photo -> bool
  {
    (p: Photo) => MatchesStation(sc, p) && MatchesCategory(cc, p)
  }

  /** The page's `filteredPhotos`. */
  function FilterPhotos(photos: seq<Photo>, sc: StationChoice, cc: CategoryChoice): (r: seq<Photo>)
    ensures forall p :: p in r ==> p in photos
    ensures forall p :: p in r ==> (sc.StationIs? ==> p.station == sc.station) && (cc.CategoryIs? ==> p.category == cc.category)
    ensures forall p :: p in photos && (sc.StationIs? ==> p.station == sc.station) && (cc.CategoryIs? ==> p.category == cc.category) ==> p in r
    ensures IsSubseq(r, photos)
    ensures |r| == CountIf(photos, Matches(sc, cc))
  {
    Filter(photos, Matches(sc, cc))
  }

  /** With both filters on "all" the page shows every photo. */
  lemma NoFilterShowsAll(photos: seq<Photo>)
    ensures FilterPhotos(photos, AnyStation, AnyCategory) == photos
  {
    FilterAll(photos, Matches(AnyStation, AnyCategory));
  }

  /** `narrow` is at least as strict as `wide` on one dimension. */
  predicate StationNarrower(narrow: StationChoice, wide: StationChoice)
  {
    wide == AnyStation || narrow == wide
  }

  predicate CategoryNarrower(narrow: CategoryChoice, wide: CategoryChoice)
  {
    wide == AnyCategory || narrow == wide
  }

  /** Narrowing either filter keeps a subsequence of what was shown. */
  lemma NarrowerFilterShowsSubseq(photos: seq<Photo>, sc: StationChoice, cc: CategoryChoice,
                                  wideS: StationChoice, wideC: CategoryChoice)
    requires StationNarrower(sc, wideS) && CategoryNarrower(cc, wideC)
    ensures IsSubseq(FilterPhotos(photos, sc, cc), FilterPhotos(photos, wideS, wideC))
  {
    FilterMonotone(photos, Matches(sc, cc), Matches(wideS, wideC));
  }

  /** "Clear Filters" is shown only while some filter is narrowed. */
  predicate ClearOffered(sc: StationChoice, cc: CategoryChoice)
  {
    sc != AnyStation || cc != AnyCategory
  }

  /** Clearing sets both filters back to "all", after which the button is gone. */
  function ClearFilters(sc: StationChoice, cc: CategoryChoice): (r: (StationChoice, CategoryChoice))
    requires ClearOffered(sc, cc)
    ensures r == (AnyStation, AnyCategory)
    ensures !ClearOffered(r.0, r.1)
  {
    (AnyStation, AnyCategory)
  }

  /** The results line, "Showing N photo submission(s)". */
  function ResultLabel(count: nat): (text: string)
    ensures |text| > 8 + |Strings.IntToString(count)|
    ensures text[..8] == "Showing "
    ensures text[8..8 + |Strings.IntToString(count)|] == Strings.IntToString(count)
    ensures text[|text| - 1] == 's' <==> count != 1
  {
    var digits := Strings.IntToString(count);
    var text := "Showing " + digits + " photo submission" + (if count != 1 then "s" else "");
    assert text[8..8 + |digits|] == digits;
    text
  }

  /** Where the page's back arrow leads: the owner's dashboard for an
      owner, the manager's dashboard for everyone else (including when no
      one is signed in). */
  function BackTarget(app: App.State): (s: Screen)
    ensures s == OwnerDashboard <==> app.user.Some? && app.user.value.role == Owner
    ensures s == ManagerDashboard <==> !(app.user.Some? && app.user.value.role == Owner)
  {
    var isOwner := app.user.Some? && app.user.value.role == Owner;
    if isOwner then OwnerDashboard else ManagerDashboard
  }

  function AtStation(st: Station): Photo -> bool
  {
    (p: Photo) => p.station == st
  }

  /** The dialog's `filteredPhotos`: all photos, or one station's in order. */
  function ModalFilter(photos: seq<Photo>, sc: StationChoice): (r: seq<Photo>)
    ensures sc == AnyStation ==> r == photos
    ensures sc.StationIs? ==>
      && (forall p :: p in r ==> p in photos && p.station == sc.station)
      && (forall p :: p in photos && p.station == sc.station ==> p in r)
      && IsSubseq(r, photos)
      && |r| == CountIf(photos, AtStation(sc.station))
    ensures |r| <= |photos|
  {
    match sc
    case AnyStation => photos
    case StationIs(st) => Filter(photos, AtStation(st))
  }

  /** Every photo is on exactly one of the two station tabs. */
  lemma StationTabsCoverList(photos: seq<Photo>)
    ensures |ModalFilter(photos, StationIs(Kitchen))| + |ModalFilter(photos, StationIs(CoffeeBar))| == |photos|
    ensures forall p :: p in photos ==> p in ModalFilter(photos, StationIs(Kitchen)) || p in ModalFilter(photos, StationIs(CoffeeBar))
  {
    CountComplement(photos, AtStation(Kitchen), AtStation(CoffeeBar));
  }
}
