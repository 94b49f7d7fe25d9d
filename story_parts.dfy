/**
 * The pieces the three story editors share: overlays placed on the media,
 * removal and editing of overlays by id, the media type a MIME type maps to,
 * the tool bar's toggle, the `music_data` objects, and the CSS filter string
 * of the upload dialog.
 */
module StoryParts {
  import opened Wrappers
  import opened Text

  /** The largest story file the editors accept: 50 MiB. */
  const MaxStoryBytes: nat := 50 * 1024 * 1024

  /** The filter and preset name that applies no filter: the starting value of both. */
  const NoFilter: string := "none"

  /** What an overlay shows. A caption is the editors' text overlay, a label the upload dialog's. */
  datatype Look =
    | Caption(text: string, color: string, fontSize: int, fontFamily: string, background: Option<string>, rotation: Option<int>)
    | Sticker(emoji: string, size: int, rotation: Option<int>)
    | Gif(url: string, size: int)
    | Label(text: string, color: string, size: int)

  /** An overlay: its id (the clock reading when it was added), its position and its look. */
  datatype Overlay = Overlay(id: string, x: real, y: real, look: Look)

  /** `list.filter(o => o.id !== id)`. */
  function RemoveId(xs: seq<Overlay>, id: string): (r: seq<Overlay>)
    ensures forall o :: o in r <==> o in xs && o.id != id
    ensures |r| <= |xs|
  {
    if xs == [] then []
    else RemoveId(xs[..|xs| - 1], id) + if xs[|xs| - 1].id == id then [] else [xs[|xs| - 1]]
  }

  /** Removal works piece by piece, so the overlays that stay keep their order. */
  lemma {:induction false} RemoveIdAppend(a: seq<Overlay>, b: seq<Overlay>, id: string)
    ensures RemoveId(a + b, id) == RemoveId(a, id) + RemoveId(b, id)
  {
    if b == [] {
      assert a + b == a;
    } else {
      var init := b[..|b| - 1];
      var last := b[|b| - 1];
      var kept := if last.id == id then [] else [last];
      assert (a + b)[..|a + b| - 1] == a + init;
      RemoveIdAppend(a, init, id);
      assert RemoveId(a + b, id) == (RemoveId(a, id) + RemoveId(init, id)) + kept;
      assert RemoveId(b, id) == RemoveId(init, id) + kept;
    }
  }

  /** A list with no overlay carrying the id is left as it is. */
  lemma {:induction false} RemoveIdAbsent(xs: seq<Overlay>, id: string)
    requires forall i :: 0 <= i < |xs| ==> xs[i].id != id
    ensures RemoveId(xs, id) == xs
  {
    if xs != [] {
      var init := xs[..|xs| - 1];
      RemoveIdAbsent(init, id);
      assert xs == init + [xs[|xs| - 1]];
    }
  }

  /** Removing the overlay just added takes it away again, together with any earlier one added in the same millisecond. */
  lemma RemoveJustAdded(xs: seq<Overlay>, o: Overlay)
    ensures RemoveId(xs + [o], o.id) == RemoveId(xs, o.id)
    ensures (forall i :: 0 <= i < |xs| ==> xs[i].id != o.id) ==> RemoveId(xs + [o], o.id) == xs
  {
    RemoveIdAppend(xs, [o], o.id);
    if forall i :: 0 <= i < |xs| ==> xs[i].id != o.id {
      RemoveIdAbsent(xs, o.id);
    }
  }

  /** The upload dialog's text input: the label with that id takes the new text; every other overlay is kept. */
  function Retexted(xs: seq<Overlay>, id: string, text: string): (r: seq<Overlay>)
    ensures |r| == |xs|
    ensures forall i :: 0 <= i < |xs| ==> r[i].id == xs[i].id && r[i].x == xs[i].x && r[i].y == xs[i].y
    ensures forall i :: 0 <= i < |xs| && (xs[i].id != id || !xs[i].look.Label?) ==> r[i] == xs[i]
    ensures forall i :: 0 <= i < |xs| && xs[i].id == id && xs[i].look.Label? ==>
      r[i].look == Label(text, xs[i].look.color, xs[i].look.size)
  {
    seq(|xs|, i requires 0 <= i < |xs| =>
      if xs[i].id == id && xs[i].look.Label? then xs[i].(look := xs[i].look.(text := text)) else xs[i])
  }

  /** The upload dialog's colour picker: the label with that id takes the new colour. */
  function Recoloured(xs: seq<Overlay>, id: string, color: string): (r: seq<Overlay>)
    ensures |r| == |xs|
    ensures forall i :: 0 <= i < |xs| ==> r[i].id == xs[i].id && r[i].x == xs[i].x && r[i].y == xs[i].y
    ensures forall i :: 0 <= i < |xs| && (xs[i].id != id || !xs[i].look.Label?) ==> r[i] == xs[i]
    ensures forall i :: 0 <= i < |xs| && xs[i].id == id && xs[i].look.Label? ==>
      r[i].look == Label(xs[i].look.text, color, xs[i].look.size)
  {
    seq(|xs|, i requires 0 <= i < |xs| =>
      if xs[i].id == id && xs[i].look.Label? then xs[i].(look := xs[i].look.(color := color)) else xs[i])
  }

  /** Editing the text twice keeps only the second edit. */
  lemma RetextedTwice(xs: seq<Overlay>, id: string, a: string, b: string)
    ensures Retexted(Retexted(xs, id, a), id, b) == Retexted(xs, id, b)
  {
  }

  /** A text edit and a colour edit do not interfere. */
  lemma EditsCommute(xs: seq<Overlay>, id: string, text: string, color: string)
    ensures Retexted(Recoloured(xs, id, color), id, text) == Recoloured(Retexted(xs, id, text), id, color)
  {
  }

  /** The background chosen for a caption: 'transparent' is stored as no background. */
  function Background(chosen: string): (r: Option<string>)
    ensures r.None? <==> chosen == "transparent"
    ensures r.Some? ==> r.value == chosen
  {
    if chosen == "transparent" then None else Some(chosen)
  }

  datatype MediaType = Image | Video | Audio

  /** The editors' `media_type`: video, else audio, else image, by MIME prefix. */
  function EditorMediaType(mime: string): (r: MediaType)
    ensures r == Video <==> StartsWith(mime, "video/")
    ensures r == Audio <==> !StartsWith(mime, "video/") && StartsWith(mime, "audio/")
    ensures r == Image <==> !StartsWith(mime, "video/") && !StartsWith(mime, "audio/")
  {
    if StartsWith(mime, "video/") then Video
    else if StartsWith(mime, "audio/") then Audio
    else Image
  }

  /** The upload dialog's `media_type`: it knows no audio. */
  function UploadMediaType(mime: string): (r: MediaType)
    ensures r == Video <==> StartsWith(mime, "video/")
    ensures r != Audio
  {
    if StartsWith(mime, "video/") then Video else Image
  }

  /** The two mappings disagree exactly on audio files, which the upload dialog files as images. */
  lemma MediaTypesDisagreeOnAudio(mime: string)
    ensures EditorMediaType(mime) != UploadMediaType(mime) <==> EditorMediaType(mime) == Audio
    ensures EditorMediaType(mime) == Audio ==> UploadMediaType(mime) == Image
  {
  }

  /** `current === x ? null : x`: pressing the chosen entry clears the choice, pressing another chooses it. */
  function Toggle<T(==)>(current: Option<T>, x: T): (r: Option<T>)
    ensures r.None? <==> current == Some(x)
    ensures r.Some? ==> r.value == x
  {
    if current == Some(x) then None else Some(x)
  }

  /** Pressing the same entry twice gives back the choice exactly when nothing or that entry was chosen. */
  lemma ToggleTwice<T>(current: Option<T>, x: T)
    ensures Toggle(Toggle(current, x), x) == current <==> current.None? || current == Some(x)
  {
  }

  /** The tools of the editors' tool bar. */
  datatype Tool = TextTool | StickerTool | MusicTool | GifTool | FilterTool

  /** A value of a stored JSON object; `Missing` is a key whose value is `undefined`. */
  datatype Json = Str(s: string) | Num(n: int) | Missing

  datatype MusicSelection = MusicSelection(title: string, artist: string, duration: int, previewUrl: Option<string>)

  /** The advanced editor's `music_data`: the selection's four fields, or `{}` when no music is chosen. */
  function MusicData(music: Option<MusicSelection>): (r: map<string, Json>)
    ensures music.None? <==> r == map[]
    ensures music.Some? ==> r.Keys == {"title", "artist", "duration", "preview_url"}
  {
    match music
    case None => map[]
    case Some(m) =>
      var r := map["title" := Str(m.title), "artist" := Str(m.artist), "duration" := Num(m.duration),
                   "preview_url" := if m.previewUrl.Some? then Str(m.previewUrl.value) else Missing];
      assert "title" in r;
      r
  }

  /** Reads a selection back from a stored `music_data` object. */
  function MusicOf(data: map<string, Json>): Option<MusicSelection> {
    if "title" in data && "artist" in data && "duration" in data && "preview_url" in data
       && data["title"].Str? && data["artist"].Str? && data["duration"].Num?
    then
      var url := if data["preview_url"].Str? then Some(data["preview_url"].s) else None;
      Some(MusicSelection(data["title"].s, data["artist"].s, data["duration"].n, url))
    else None
  }

  /** The stored object holds the whole selection: reading it back gives the selection. */
  lemma MusicRoundTrip(music: Option<MusicSelection>)
    ensures MusicOf(MusicData(music)) == music
  {
  }

  /** The upload dialog's `music_data`: `{ track }` for a chosen track, `{}` otherwise. */
  function TrackData(track: Option<string>): (r: map<string, Json>)
    ensures track.None? <==> r == map[]
    ensures track.Some? ==> r.Keys == {"track"} && r["track"] == Str(track.value)
  {
    if track.None? then map[]
    else
      var r := map["track" := Str(track.value)];
      assert "track" in r;
      r
  }

  /** The decimal digits of a slider value, as a template string prints it. */
  function Decimal(n: nat): (r: string)
    ensures |r| >= 1
    ensures forall i :: 0 <= i < |r| ==> '0' <= r[i] <= '9'
  {
    if n < 10 then [(n + '0' as int) as char]
    else Decimal(n / 10) + [(n % 10 + '0' as int) as char]
  }

  /** The number a string of decimal digits denotes. */
  function ValueOf(s: string): int {
    if s == [] then 0 else 10 * ValueOf(s[..|s| - 1]) + (s[|s| - 1] as int - '0' as int)
  }

  /** The digits printed denote the slider value. */
  lemma {:induction false} DecimalRoundTrip(n: nat)
    ensures ValueOf(Decimal(n)) == n
  {
    if n >= 10 {
      var d := Decimal(n);
      assert d[..|d| - 1] == Decimal(n / 10);
      DecimalRoundTrip(n / 10);
    }
  }

  /** The CSS filter of each preset; 'none' and unknown names have none. */
  function PresetFilter(name: string): string {
    match name
    case "vintage" => "sepia(0.5) contrast(1.2)"
    case "bw" => "grayscale(1)"
    case "warm" => "hue-rotate(15deg) saturate(1.2)"
    case "cool" => "hue-rotate(-15deg) saturate(0.8)"
    case "dramatic" => "contrast(1.5) brightness(0.9)"
    case _ => ""
  }

  /** The slider part of the filter string. */
  function Adjustments(brightness: nat, contrast: nat, saturation: nat): string {
    "brightness(" + Decimal(brightness) + "%) contrast(" + Decimal(contrast) + "%) saturate(" + Decimal(saturation) + "%)"
  }

  /** `getFilterStyle`: the preset's filter, a space and the slider part, or the slider part alone. */
  function FilterStyle(preset: string, brightness: nat, contrast: nat, saturation: nat): (r: string)
    ensures var adj := Adjustments(brightness, contrast, saturation);
      |adj| <= |r| && r[|r| - |adj|..] == adj &&
      r[..|r| - |adj|] == if PresetFilter(preset) == "" then "" else PresetFilter(preset) + " "
  {
    var base := PresetFilter(preset);
    var adj := Adjustments(brightness, contrast, saturation);
    if base != "" then base + " " + adj else adj
  }

  /** With no preset the style is the slider part alone; a starting slider prints as "100". */
  lemma NeutralStyle(brightness: nat, contrast: nat, saturation: nat)
    ensures FilterStyle(NoFilter, brightness, contrast, saturation) == Adjustments(brightness, contrast, saturation)
    ensures Decimal(100) == "100"
  {
    assert Decimal(1) == "1";
    assert Decimal(10) == "10";
  }
}
