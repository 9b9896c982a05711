/** The heat map screen's reducer: each mutation copies the state with some
    fields replaced. */
module HeatMapReducer {
  import opened Wrappers

  /** A map coordinate in the map library's type. */
  datatype LatLon = LatLon(lat: real, lon: real)

  /** A photo with its location, when it has one. */
  datatype Photo = Photo(id: string, latLng: Option<(real, real)>)

  datatype HeatMapState = HeatMapState(
    allPhotos: seq<Photo>,
    photosToDisplay: seq<Photo>,
    pointsToDisplay: seq<LatLon>,
    loading: bool)

  datatype HeatMapMutation =
    | UpdateAllPhotos(photos: seq<Photo>)
    | ShowLoading(loading: bool)
    | UpdateDisplay(photosToDisplay: seq<Photo>, pointsToDisplay: seq<LatLon>)

  predicate Located(p: Photo) {
    p.latLng.Some?
  }

  function PointOf(p: Photo): LatLon
    requires Located(p)
  {
    LatLon(p.latLng.value.0, p.latLng.value.1)
  }

  /** `photos.mapNotNull { it.latLng }.map { (lat, lon) -> LatLon(lat, lon) }`. */
  function Points(photos: seq<Photo>): (r: seq<LatLon>)
    ensures |r| <= |photos|
    ensures forall p :: p in r <==> exists i :: 0 <= i < |photos| && Located(photos[i]) && PointOf(photos[i]) == p
  {
    if photos == [] then []
    else
      var rest := Points(photos[1..]);
      assert forall i :: 1 <= i < |photos| ==> photos[i] == photos[1..][i - 1];
      (if Located(photos[0]) then [PointOf(photos[0])] else []) + rest
  }

  /** The points keep the order of the photos they come from. */
  lemma {:induction false} PointsConcat(a: seq<Photo>, b: seq<Photo>)
    ensures Points(a + b) == Points(a) + Points(b)
  {
    if a == [] {
      assert a + b == b;
    } else {
      var head := if Located(a[0]) then [PointOf(a[0])] else [];
      assert (a + b)[0] == a[0];
      assert (a + b)[1..] == a[1..] + b;
      assert Points(a + b) == head + Points(a[1..] + b);
      assert Points(a) == head + Points(a[1..]);
      PointsConcat(a[1..], b);
    }
  }

  /** There is one point per photo exactly when every photo has a location. */
  lemma {:induction false} PointsFullIff(photos: seq<Photo>)
    ensures |Points(photos)| == |photos| <==> forall i :: 0 <= i < |photos| ==> Located(photos[i])
  {
    if photos != [] {
      PointsFullIff(photos[1..]);
      assert forall i :: 1 <= i < |photos| ==> photos[i] == photos[1..][i - 1];
    }
  }

  /** When every photo has a location, point i is the location of photo i. */
  lemma {:induction false} PointsOfLocated(photos: seq<Photo>, i: nat)
    requires forall j :: 0 <= j < |photos| ==> Located(photos[j])
    requires i < |photos|
    ensures |Points(photos)| == |photos|
    ensures Points(photos)[i] == PointOf(photos[i])
  {
    PointsFullIff(photos);
    if i > 0 {
      PointsOfLocated(photos[1..], i - 1);
    }
  }

  /** `heatMapReducer`. */
  function Reduce(state: HeatMapState, mutation: HeatMapMutation): (s: HeatMapState)
    ensures mutation.UpdateAllPhotos? ==>
      s == state.(pointsToDisplay := Points(mutation.photos), allPhotos := mutation.photos)
    ensures mutation.ShowLoading? ==> s == state.(loading := mutation.loading)
    ensures mutation.UpdateDisplay? ==>
      s.photosToDisplay == mutation.photosToDisplay && s.pointsToDisplay == mutation.pointsToDisplay &&
      s.allPhotos == state.allPhotos && s.loading == state.loading
  {
    match mutation
    case UpdateAllPhotos(photos) => state.(pointsToDisplay := Points(photos), allPhotos := photos)
    case ShowLoading(loading) => state.(loading := loading)
    case UpdateDisplay(photos, points) => state.(photosToDisplay := photos, pointsToDisplay := points)
  }

  /** After `UpdateAllPhotos` the points are the locations of the located
      photos, one per photo exactly when all are located, and then point i is
      the location of photo i. */
  lemma {:induction false} UpdateAllPhotosPoints(state: HeatMapState, photos: seq<Photo>, p: LatLon)
    ensures var s := Reduce(state, UpdateAllPhotos(photos));
      (p in s.pointsToDisplay <==> exists i :: 0 <= i < |photos| && Located(photos[i]) && PointOf(photos[i]) == p) &&
      (|s.pointsToDisplay| == |photos| <==> forall i :: 0 <= i < |photos| ==> Located(photos[i])) &&
      ((forall i :: 0 <= i < |photos| ==> Located(photos[i])) ==>
        forall i :: 0 <= i < |photos| ==> s.pointsToDisplay[i] == PointOf(photos[i]))
  {
    PointsFullIff(photos);
    if forall i :: 0 <= i < |photos| ==> Located(photos[i]) {
      forall i | 0 <= i < |photos| ensures Points(photos)[i] == PointOf(photos[i]) {
        PointsOfLocated(photos, i);
      }
    }
  }

  /** Loading and the two updates touch disjoint fields, so showing the
      loading indicator commutes with either update. */
  lemma ShowLoadingCommutes(state: HeatMapState, loading: bool, m: HeatMapMutation)
    requires !m.ShowLoading?
    ensures Reduce(Reduce(state, ShowLoading(loading)), m) == Reduce(Reduce(state, m), ShowLoading(loading))
  {
  }
}
