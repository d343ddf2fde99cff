/** The decisions the BRITE-Constellation mapping makes about a file: which
    mapping it gets, the product type of its artifact, the bandpass named by
    the satellite, and how `update` changes an observation. The observation
    is a subset of the CAOM model: only the fields `update` reads or writes. */
module MainApp {
  import opened Wrappers
  import opened Strings
  import StorageName

  // ---------------------------------------------------------------------
  // Which mapping a file gets.

  datatype Mapping = PlainMapping | UndecorrelatedMapping | DecorrelatedMapping

  /** `mapping_factory`: no mapping for a sentinel; the `.orig` file and the
      `.ndatdb` file get their own mappings, every other file the plain one. */
  function MappingFor(fileName: string): (r: Option<Mapping>)
    ensures r.None? <==> !StorageName.IsArchived(fileName)
    ensures r == Some(UndecorrelatedMapping) <==> StorageName.HasUndecorrelatedMetadata(fileName)
    ensures r == Some(DecorrelatedMapping) <==> StorageName.HasDecorrelatedMetadata(fileName)
  {
    StorageName.ClassificationIsConsistent(fileName);
    if StorageName.IsArchived(fileName) then
      if StorageName.HasUndecorrelatedMetadata(fileName) then Some(UndecorrelatedMapping)
      else if StorageName.HasDecorrelatedMetadata(fileName) then Some(DecorrelatedMapping)
      else Some(PlainMapping)
    else None
  }

  /** The mapping of each file of an observation. */
  lemma MappingOfNamed(root: string, ext: string)
    requires ext in StorageName.Extensions
    ensures MappingFor(root + ext) ==
      if ext == ".lst" || ext == ".md5" then None
      else if ext == ".orig" then Some(UndecorrelatedMapping)
      else if ext == ".ndatdb" then Some(DecorrelatedMapping)
      else Some(PlainMapping)
  {
    StorageName.ClassifyNamed(root, ext);
  }

  // ---------------------------------------------------------------------
  // Artifact product type.

  datatype ProductType = Science | Info

  /** `_get_artifact_product_type`: the files with a time series are science. */
  function ArtifactProductType(fileName: string): (r: ProductType)
    ensures r == Science ==> MappingFor(fileName).Some?
    ensures StorageName.IsLastToIngest(fileName) || !StorageName.IsArchived(fileName) ==> r == Info
  {
    StorageName.ClassificationIsConsistent(fileName);
    if StorageName.HasData(fileName) then Science else Info
  }

  /** The product type of each file of an observation: the log and frequency
      files are information, and every science file has a mapping. */
  lemma ProductTypeOfNamed(root: string, ext: string)
    requires ext in StorageName.Extensions
    ensures ArtifactProductType(root + ext) == Science <==> ext == ".orig" || ext == ".ndatdb" || ext == ".avedb"
    ensures ArtifactProductType(root + ext) == Info <==> ext in {".freq0db", ".lst", ".md5", ".rlogdb"}
    ensures ArtifactProductType(root + ext) == Science ==> MappingFor(root + ext).Some?
  {
    StorageName.ClassifyNamed(root, ext);
  }

  // ---------------------------------------------------------------------
  // Bandpass.

  /** A bandpass with its wavelength limits in microns. */
  datatype Band = Band(name: string, lower: real, upper: real)

  const Blue: Band := Band("Blue", 0.39, 0.46)
  const Red: Band := Band("Red", 0.54, 0.70)

  datatype BandError =
    | NoSatellite           // the header has no `SatellID`: indexing `None` fails
    | EmptySatellite        // an empty `SatellID` has no last character
    | UnknownFilter(c: char)

  const SatelliteKey: string := "SatellID"

  /** The filter named by the last character of the satellite identifier. */
  function Bandpass(metadata: map<string, string>): (r: Result<Band, BandError>)
    ensures r.Ok? <==>
      (SatelliteKey in metadata && |metadata[SatelliteKey]| > 0 && metadata[SatelliteKey][|metadata[SatelliteKey]| - 1] in {'b', 'r'})
    ensures r.Ok? ==> r.value.lower < r.value.upper
    ensures r.Ok? ==> (r.value == Blue <==> metadata[SatelliteKey][|metadata[SatelliteKey]| - 1] == 'b')
    ensures r.Ok? ==> (r.value == Red <==> metadata[SatelliteKey][|metadata[SatelliteKey]| - 1] == 'r')
  {
    if SatelliteKey !in metadata then Err(NoSatellite)
    else
      var id := metadata[SatelliteKey];
      if |id| == 0 then Err(EmptySatellite)
      else if id[|id| - 1] == 'b' then Ok(Blue)
      else if id[|id| - 1] == 'r' then Ok(Red)
      else Err(UnknownFilter(id[|id| - 1]))
  }

  /** A satellite identifier ending in anything but `b` or `r` is refused
      with that character. */
  lemma UnknownFilterReported(metadata: map<string, string>)
    requires SatelliteKey in metadata && |metadata[SatelliteKey]| > 0
    requires metadata[SatelliteKey][|metadata[SatelliteKey]| - 1] !in {'b', 'r'}
    ensures Bandpass(metadata) == Err(UnknownFilter(metadata[SatelliteKey][|metadata[SatelliteKey]| - 1]))
  {
  }

  // ---------------------------------------------------------------------
  // The observation.

  datatype CoordRange = CoordRange(start: real, end: real)
  datatype CoordFunction = CoordFunction(naxis: int, delta: real, refCoord: real)
  datatype CoordAxis = CoordAxis(ctype: string, cunit: string, range: Option<CoordRange>, func: Option<CoordFunction>)

  /** A temporal or spectral WCS, reduced to its axis. */
  datatype Wcs = Wcs(axis: Option<CoordAxis>)

  datatype Chunk = Chunk(
    naxis: Option<int>,
    positionAxis1: Option<int>,
    positionAxis2: Option<int>,
    energyAxis: Option<int>,
    timeAxis: Option<int>,
    time: Option<Wcs>,
    energy: Option<Wcs>)

  datatype Part = Part(name: string, chunks: seq<Chunk>)

  datatype Artifact = Artifact(uri: string, productType: ProductType, contentType: Option<string>, parts: map<string, Part>)

  datatype Provenance = Provenance(name: string, producer: string, version: string, runId: string)

  datatype CalibrationLevel = RawStandard | Calibrated

  datatype Plane = Plane(
    productId: string,
    artifacts: map<string, Artifact>,
    provenance: Option<Provenance>,
    calibrationLevel: Option<CalibrationLevel>)

  datatype Observation = Observation(observationId: string, planes: map<string, Plane>)

  // ---------------------------------------------------------------------
  // `_update_artifact`: no cutouts, and time and energy as ranges only.

  /** The WCS without its axis function; nothing else changes. */
  function DropFunction(w: Option<Wcs>): Option<Wcs> {
    if w.Some? && w.value.axis.Some? && w.value.axis.value.func.Some? then
      Some(w.value.(axis := Some(w.value.axis.value.(func := None))))
    else w
  }

  /** A WCS with no axis function. */
  predicate RangeOnly(w: Option<Wcs>) {
    w.Some? && w.value.axis.Some? ==> w.value.axis.value.func.None?
  }

  /** Apart from the function, the two WCS agree: presence, type, unit and range. */
  predicate SameExceptFunction(w: Option<Wcs>, v: Option<Wcs>) {
    && w.Some? == v.Some?
    && (w.Some? ==> w.value.axis.Some? == v.value.axis.Some?)
    && (w.Some? && w.value.axis.Some? ==>
          var a, b := w.value.axis.value, v.value.axis.value;
          a.ctype == b.ctype && a.cunit == b.cunit && a.range == b.range)
  }

  /** A chunk no cutout can be taken from. */
  predicate NoCutouts(c: Chunk) {
    && c.naxis.None? && c.positionAxis1.None? && c.positionAxis2.None?
    && c.energyAxis.None? && c.timeAxis.None?
    && RangeOnly(c.time) && RangeOnly(c.energy)
  }

  function ClearChunk(c: Chunk): (r: Chunk)
    ensures NoCutouts(r)
    ensures SameExceptFunction(c.time, r.time) && SameExceptFunction(c.energy, r.energy)
  {
    c.(naxis := None, positionAxis1 := None, positionAxis2 := None, energyAxis := None, timeAxis := None,
       time := DropFunction(c.time), energy := DropFunction(c.energy))
  }

  /** Clearing changes exactly the chunks that allow cutouts: a chunk is left
      alone if and only if it already allows none. */
  lemma ClearChunkFixpoints(c: Chunk)
    ensures ClearChunk(c) == c <==> NoCutouts(c)
    ensures ClearChunk(ClearChunk(c)) == ClearChunk(c)
  {
  }

  function ClearPart(p: Part): (r: Part)
    ensures r.name == p.name && |r.chunks| == |p.chunks|
    ensures forall i :: 0 <= i < |r.chunks| ==> r.chunks[i] == ClearChunk(p.chunks[i])
  {
    p.(chunks := seq(|p.chunks|, i requires 0 <= i < |p.chunks| => ClearChunk(p.chunks[i])))
  }

  /** Every chunk of every part cleared; the artifact keeps its parts and chunks. */
  function UpdateArtifact(a: Artifact): (r: Artifact)
    ensures r.uri == a.uri && r.productType == a.productType && r.contentType == a.contentType
    ensures r.parts.Keys == a.parts.Keys
    ensures forall k :: k in r.parts ==> r.parts[k] == ClearPart(a.parts[k])
  {
    a.(parts := map k | k in a.parts :: ClearPart(a.parts[k]))
  }

  /** Every chunk of the artifact allows no cutout. */
  predicate Cleared(a: Artifact) {
    forall k, i :: k in a.parts && 0 <= i < |a.parts[k].chunks| ==> NoCutouts(a.parts[k].chunks[i])
  }

  lemma UpdateArtifactClears(a: Artifact)
    ensures Cleared(UpdateArtifact(a))
    ensures UpdateArtifact(UpdateArtifact(a)) == UpdateArtifact(a)
  {
    var r := UpdateArtifact(a);
    forall k | k in r.parts
      ensures ClearPart(r.parts[k]) == r.parts[k]
    {
      var p := r.parts[k];
      forall i | 0 <= i < |p.chunks|
        ensures ClearChunk(p.chunks[i]) == p.chunks[i]
      {
        ClearChunkFixpoints(a.parts[k].chunks[i]);
      }
    }
  }

  // ---------------------------------------------------------------------
  // `update`.

  /** The artifact of the file being ingested, in the plane it belongs to.
      The loop's second test names the `archived` function without calling
      it, so it never skips an artifact: there is no test of the file here. */
  predicate Touches(plane: Plane, a: Artifact, fileUri: string) {
    plane.productId == StorageName.ProductId && a.uri == fileUri
  }

  /** The content type is plain text; the mappings with metadata also clear
      the chunks. The plain mapping keeps the inherited behaviour, which does
      nothing to the artifact. */
  function TouchArtifact(a: Artifact, mapping: Mapping): (r: Artifact)
    ensures r.contentType == Some("text/plain") && r.uri == a.uri && r.productType == a.productType
    ensures mapping != PlainMapping ==> Cleared(r)
    ensures mapping != PlainMapping ==>
      r.parts.Keys == a.parts.Keys && forall k :: k in r.parts ==> r.parts[k] == ClearPart(a.parts[k])
    ensures mapping == PlainMapping ==> r.parts == a.parts
  {
    var typed := a.(contentType := Some("text/plain"));
    if mapping == PlainMapping then typed
    else
      UpdateArtifactClears(typed);
      UpdateArtifact(typed)
  }

  function UpdatePlane(plane: Plane, mapping: Mapping, fileUri: string): Plane {
    plane.(artifacts := map k | k in plane.artifacts ::
      if Touches(plane, plane.artifacts[k], fileUri) then TouchArtifact(plane.artifacts[k], mapping)
      else plane.artifacts[k])
  }

  /** The artifact loop of `update`: only the file's own artifact, in a plane
      with the collection's product identifier, gets plain text as its
      content type; nothing else changes. */
  function UpdateArtifacts(obs: Observation, mapping: Mapping, fileUri: string): (r: Observation)
    ensures r.observationId == obs.observationId && r.planes.Keys == obs.planes.Keys
    ensures forall p :: p in obs.planes ==>
      var before, after := obs.planes[p], r.planes[p];
      && after.productId == before.productId && after.provenance == before.provenance
      && after.calibrationLevel == before.calibrationLevel
      && after.artifacts.Keys == before.artifacts.Keys
      && forall k :: k in before.artifacts ==>
           if Touches(before, before.artifacts[k], fileUri) then
             after.artifacts[k] == TouchArtifact(before.artifacts[k], mapping)
           else after.artifacts[k] == before.artifacts[k]
  {
    obs.(planes := map p | p in obs.planes :: UpdatePlane(obs.planes[p], mapping, fileUri))
  }

  const DecorrelatedPlane: string := "decorrelated"
  const UndecorrelatedPlane: string := "un-decorrelated"

  /** `_update_copy_metadata`: with both planes present, the decorrelated plane
      takes the provenance of the un-decorrelated one and becomes calibrated;
      otherwise, and for every other plane, nothing changes. The copy of the
      `.ndatdb` artifact's parts into the other artifacts of a plane with four
      or more artifacts is not part of this model, so the artifacts are kept. */
  function UpdateCopyMetadata(obs: Observation): (r: Observation)
    ensures r.observationId == obs.observationId && r.planes.Keys == obs.planes.Keys
    ensures DecorrelatedPlane in obs.planes && UndecorrelatedPlane in obs.planes ==>
      && r.planes[DecorrelatedPlane].provenance == obs.planes[UndecorrelatedPlane].provenance
      && r.planes[DecorrelatedPlane].calibrationLevel == Some(Calibrated)
      && r.planes[DecorrelatedPlane].artifacts == obs.planes[DecorrelatedPlane].artifacts
      && r.planes[DecorrelatedPlane].productId == obs.planes[DecorrelatedPlane].productId
    ensures !(DecorrelatedPlane in obs.planes && UndecorrelatedPlane in obs.planes) ==> r == obs
    ensures forall p :: p in obs.planes && p != DecorrelatedPlane ==> r.planes[p] == obs.planes[p]
  {
    if DecorrelatedPlane in obs.planes && UndecorrelatedPlane in obs.planes then
      var de := obs.planes[DecorrelatedPlane];
      var un := obs.planes[UndecorrelatedPlane];
      obs.(planes := obs.planes[DecorrelatedPlane := de.(provenance := un.provenance, calibrationLevel := Some(Calibrated))])
    else obs
  }

  /** `update`: the artifact loop, then the plane copy. */
  function Update(obs: Observation, mapping: Mapping, fileUri: string): (r: Observation)
    ensures r.observationId == obs.observationId && r.planes.Keys == obs.planes.Keys
    ensures forall p :: p in obs.planes ==> r.planes[p].artifacts.Keys == obs.planes[p].artifacts.Keys
    ensures forall p, k :: p in obs.planes && k in obs.planes[p].artifacts ==>
      if Touches(obs.planes[p], obs.planes[p].artifacts[k], fileUri) then
        r.planes[p].artifacts[k] == TouchArtifact(obs.planes[p].artifacts[k], mapping)
      else r.planes[p].artifacts[k] == obs.planes[p].artifacts[k]
  {
    UpdateCopyMetadata(UpdateArtifacts(obs, mapping, fileUri))
  }

  /** Touching an artifact twice is touching it once. */
  lemma TouchArtifactIdempotent(a: Artifact, mapping: Mapping)
    ensures TouchArtifact(TouchArtifact(a, mapping), mapping) == TouchArtifact(a, mapping)
  {
    if mapping != PlainMapping {
      var typed := a.(contentType := Some("text/plain"));
      UpdateArtifactClears(typed);
      var once := UpdateArtifact(typed);
      assert once.(contentType := Some("text/plain")) == once;
    }
  }

  /** The artifact loop leaves the plane copy's inputs and the copy leaves the
      artifacts: they commute. */
  lemma {:induction false} UpdateArtifactsIdempotent(obs: Observation, mapping: Mapping, fileUri: string)
    ensures var once := UpdateArtifacts(obs, mapping, fileUri);
      UpdateArtifacts(once, mapping, fileUri) == once
  {
    var once := UpdateArtifacts(obs, mapping, fileUri);
    var twice := UpdateArtifacts(once, mapping, fileUri);
    forall p | p in once.planes
      ensures twice.planes[p] == once.planes[p]
    {
      var before := obs.planes[p];
      forall k | k in once.planes[p].artifacts
        ensures twice.planes[p].artifacts[k] == once.planes[p].artifacts[k]
      {
        if Touches(before, before.artifacts[k], fileUri) {
          TouchArtifactIdempotent(before.artifacts[k], mapping);
        }
      }
    }
  }

  /** `update` applied twice gives what it gives once. */
  lemma UpdateIdempotent(obs: Observation, mapping: Mapping, fileUri: string)
    ensures var once := Update(obs, mapping, fileUri);
      Update(once, mapping, fileUri) == once
  {
    var mid := UpdateArtifacts(obs, mapping, fileUri);
    UpdateArtifactsIdempotent(obs, mapping, fileUri);
    ArtifactsAfterCopy(mid, mapping, fileUri);
    CopyMetadataIdempotent(mid);
  }

  /** The plane copy touches neither product identifiers nor artifacts, so
      an artifact loop with nothing left to do still has nothing to do. */
  lemma ArtifactsAfterCopy(mid: Observation, mapping: Mapping, fileUri: string)
    requires UpdateArtifacts(mid, mapping, fileUri) == mid
    ensures var once := UpdateCopyMetadata(mid);
      UpdateArtifacts(once, mapping, fileUri) == once
  {
    var once := UpdateCopyMetadata(mid);
    var again := UpdateArtifacts(once, mapping, fileUri);
    forall p | p in once.planes
      ensures again.planes[p] == once.planes[p]
    {
      forall k | k in once.planes[p].artifacts
        ensures again.planes[p].artifacts[k] == once.planes[p].artifacts[k]
      {
        assert once.planes[p].artifacts == mid.planes[p].artifacts;
      }
    }
  }

  /** Copying the plane metadata a second time changes nothing. */
  lemma CopyMetadataIdempotent(obs: Observation)
    ensures UpdateCopyMetadata(UpdateCopyMetadata(obs)) == UpdateCopyMetadata(obs)
  {
  }

  /** When no artifact of the collection's planes carries the file's URI,
      `update` touches no artifact: only the plane copy can act. */
  lemma UpdateOfAbsentUri(obs: Observation, mapping: Mapping, fileUri: string)
    requires forall p, k :: p in obs.planes && k in obs.planes[p].artifacts ==>
      !Touches(obs.planes[p], obs.planes[p].artifacts[k], fileUri)
    ensures Update(obs, mapping, fileUri) == UpdateCopyMetadata(obs)
  {
    var mid := UpdateArtifacts(obs, mapping, fileUri);
    forall p | p in obs.planes
      ensures mid.planes[p] == obs.planes[p]
    {
    }
  }
}
