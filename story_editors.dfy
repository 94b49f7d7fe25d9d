/**
 * The three story editors: the advanced editor and the plain editor (media,
 * caption, text, sticker and GIF overlays, a tool bar, a filter, publish and
 * reset), and the upload dialog (media, caption, preset filter with three
 * sliders, a background track, text labels and stickers). Publishing reads
 * the file as a data URL and inserts one row into the `stories` table.
 */
module StoryEditors {
  import opened Wrappers
  import opened Text
  import opened Rows
  import opened StoryParts
  import Compose

  /** A row of the `stories` table as the editors write it. */
  datatype StoryRow = StoryRow(
    userId: Id,
    mediaUrl: string,
    mediaType: MediaType,
    content: string,
    texts: seq<Overlay>,
    stickers: seq<Overlay>,
    gifs: seq<Overlay>,
    music: map<string, Json>,
    filters: map<string, Json>)

  /** The advanced editor. */
  class AdvancedEditor {
    const user: Option<Id>
    var media: Option<Compose.File>
    var preview: string
    var caption: string
    var texts: seq<Overlay>
    var stickers: seq<Overlay>
    var gifs: seq<Overlay>
    var tool: Option<Tool>
    var music: Option<MusicSelection>
    var filter: string
    /** The text tool's input and style. */
    var newText: string
    var textColor: string
    var textBackground: string
    var fontSize: int
    var fontFamily: string
    /** The `stories` table. */
    var stories: seq<StoryRow>

    /** Each overlay list holds its own kind of overlay. */
    ghost predicate Valid()
      reads this`texts, this`stickers, this`gifs
    {
      (forall i :: 0 <= i < |texts| ==> texts[i].look.Caption?) &&
      (forall i :: 0 <= i < |stickers| ==> stickers[i].look.Sticker?) &&
      (forall i :: 0 <= i < |gifs| ==> gifs[i].look.Gif?)
    }

    /** The fields `resetEditor` restores, at their starting values. */
    ghost predicate Cleared()
      reads this`media, this`preview, this`caption, this`texts, this`stickers, this`gifs, this`music, this`filter, this`tool, this`newText
    {
      media.None? && preview == "" && caption == "" && texts == [] && stickers == [] && gifs == [] &&
      music.None? && filter == NoFilter && tool.None? && newText == ""
    }

    /** The row a publish inserts. */
    function Draft(): (r: StoryRow)
      requires user.Some? && media.Some?
      reads this
      ensures r.userId == user.value && r.mediaUrl == media.value.dataUrl && r.content == caption
      ensures r.mediaType == EditorMediaType(media.value.mime)
      ensures r.texts == texts && r.stickers == stickers && r.gifs == gifs
      ensures MusicOf(r.music) == music
      ensures r.filters == map["current" := Str(filter)]
    {
      MusicRoundTrip(music);
      StoryRow(user.value, media.value.dataUrl, EditorMediaType(media.value.mime), caption,
               texts, stickers, gifs, MusicData(music), map["current" := Str(filter)])
    }

    constructor (user: Option<Id>, stories: seq<StoryRow>)
      ensures Valid() && Cleared()
      ensures this.user == user && this.stories == stories
      ensures textColor == "#ffffff" && textBackground == "transparent" && fontSize == 24 && fontFamily == "Arial"
    {
      this.user := user;
      media := None;
      preview := "";
      caption := "";
      texts := [];
      stickers := [];
      gifs := [];
      tool := None;
      music := None;
      filter := NoFilter;
      newText := "";
      textColor := "#ffffff";
      textBackground := "transparent";
      fontSize := 24;
      fontFamily := "Arial";
      this.stories := stories;
    }

    /** `handleFileSelect`: no file or one over 50 MiB changes nothing; otherwise it becomes the media, previewed at `url`. */
    method SelectFile(file: Option<Compose.File>, url: string)
      modifies this`media, this`preview
      ensures file.None? || file.value.size > MaxStoryBytes ==> media == old(media) && preview == old(preview)
      ensures file.Some? && file.value.size <= MaxStoryBytes ==> media == file && preview == url
    {
      if file.None? || file.value.size > MaxStoryBytes {
        return;
      }
      media := file;
      preview := url;
    }

    /**
     * `addTextOverlay`: blank input changes nothing. Otherwise one caption
     * with the input and the current style is appended at a random spot,
     * the input empties and the tool closes.
     */
    method AddText(id: string, x: real, y: real)
      requires Valid() && 50.0 <= x < 250.0 && 50.0 <= y < 250.0
      modifies this`texts, this`newText, this`tool
      ensures Valid()
      ensures IsBlank(old(newText)) ==> texts == old(texts) && newText == old(newText) && tool == old(tool)
      ensures !IsBlank(old(newText)) ==>
        texts == old(texts) + [Overlay(id, x, y, Caption(old(newText), textColor, fontSize, fontFamily, Background(textBackground), Some(0)))] &&
        newText == "" && tool.None?
    {
      if IsBlank(newText) {
        return;
      }
      texts := texts + [Overlay(id, x, y, Caption(newText, textColor, fontSize, fontFamily, Background(textBackground), Some(0)))];
      newText := "";
      tool := None;
    }

    /** `addStickerOverlay`: appends a 40-pixel sticker; the sticker tool stays open. */
    method AddSticker(id: string, emoji: string, x: real, y: real)
      requires Valid() && 50.0 <= x < 250.0 && 50.0 <= y < 250.0
      modifies this`stickers
      ensures Valid()
      ensures stickers == old(stickers) + [Overlay(id, x, y, Sticker(emoji, 40, Some(0)))]
      ensures tool == old(tool)
    {
      stickers := stickers + [Overlay(id, x, y, Sticker(emoji, 40, Some(0)))];
    }

    /** `addGifOverlay`: appends a 100-pixel GIF and closes the tool. */
    method AddGif(id: string, url: string, x: real, y: real)
      requires Valid() && 50.0 <= x < 250.0 && 50.0 <= y < 250.0
      modifies this`gifs, this`tool
      ensures Valid()
      ensures gifs == old(gifs) + [Overlay(id, x, y, Gif(url, 100))] && tool.None?
    {
      gifs := gifs + [Overlay(id, x, y, Gif(url, 100))];
      tool := None;
    }

    method RemoveText(id: string)
      requires Valid()
      modifies this`texts
      ensures Valid()
      ensures texts == RemoveId(old(texts), id) && stickers == old(stickers) && gifs == old(gifs)
    {
      texts := RemoveId(texts, id);
    }

    method RemoveSticker(id: string)
      requires Valid()
      modifies this`stickers
      ensures Valid()
      ensures stickers == RemoveId(old(stickers), id) && texts == old(texts) && gifs == old(gifs)
    {
      stickers := RemoveId(stickers, id);
    }

    method RemoveGif(id: string)
      requires Valid()
      modifies this`gifs
      ensures Valid()
      ensures gifs == RemoveId(old(gifs), id) && texts == old(texts) && stickers == old(stickers)
    {
      gifs := RemoveId(gifs, id);
    }

    /** `selectMusic`: the track is chosen and the tool closes. */
    method SelectMusic(m: MusicSelection)
      modifies this`music, this`tool
      ensures music == Some(m) && tool.None?
    {
      music := Some(m);
      tool := None;
    }

    /** The close button on the music badge. */
    method ClearMusic()
      modifies this`music
      ensures music.None?
    {
      music := None;
    }

    /** A tool button: the open tool's button closes it, any other button opens its tool. */
    method PressTool(t: Tool)
      modifies this`tool
      ensures tool == Toggle(old(tool), t)
      ensures tool.None? <==> old(tool) == Some(t)
    {
      tool := Toggle(tool, t);
    }

    /** `resetEditor`: media, caption, overlays, music, filter, tool and text input go back to their starting values; the text style and the published stories lie outside the frame, so they are kept. */
    method Reset()
      modifies this`media, this`preview, this`caption, this`texts, this`stickers, this`gifs, this`music, this`filter, this`tool, this`newText
      ensures Valid() && Cleared()
    {
      media := None;
      preview := "";
      caption := "";
      texts := [];
      stickers := [];
      gifs := [];
      music := None;
      filter := NoFilter;
      tool := None;
      newText := "";
    }

    /**
     * `handlePublishStory`: without a user or media nothing happens. A
     * successful insert adds the draft's row and resets the editor; a failed
     * one leaves everything as it was.
     */
    method Publish(ok: bool)
      requires Valid()
      modifies this
      ensures Valid()
      ensures user.None? || old(media).None? || !ok ==> unchanged(this)
      ensures user.Some? && old(media).Some? && ok ==> stories == old(stories) + [old(Draft())] && Cleared()
    {
      if user.None? || media.None? || !ok {
        return;
      }
      stories := stories + [Draft()];
      Reset();
    }
  }

  /** The one font of the plain editor's captions. */
  const PlainFont: string := "Arial"

  /** The plain editor: captions sit at (50, 50) in Arial, and every overlay closes its tool. */
  class PlainEditor {
    const user: Option<Id>
    var media: Option<Compose.File>
    var preview: string
    var caption: string
    var texts: seq<Overlay>
    var stickers: seq<Overlay>
    var gifs: seq<Overlay>
    var tool: Option<Tool>
    var filter: string
    var newText: string
    var textColor: string
    var textBackground: string
    var fontSize: int
    var stories: seq<StoryRow>

    ghost predicate Valid()
      reads this`texts, this`stickers, this`gifs
    {
      (forall i :: 0 <= i < |texts| ==> texts[i].look.Caption?) &&
      (forall i :: 0 <= i < |stickers| ==> stickers[i].look.Sticker?) &&
      (forall i :: 0 <= i < |gifs| ==> gifs[i].look.Gif?)
    }

    ghost predicate Cleared()
      reads this`media, this`preview, this`caption, this`texts, this`stickers, this`gifs, this`filter, this`tool, this`newText
    {
      media.None? && preview == "" && caption == "" && texts == [] && stickers == [] && gifs == [] &&
      filter == NoFilter && tool.None? && newText == ""
    }

    /** The row a publish inserts; no control sets a track here, so `music_data` is always `{}`. */
    function Draft(): (r: StoryRow)
      requires user.Some? && media.Some?
      reads this
      ensures r.userId == user.value && r.mediaUrl == media.value.dataUrl && r.content == caption
      ensures r.mediaType == EditorMediaType(media.value.mime)
      ensures r.texts == texts && r.stickers == stickers && r.gifs == gifs
      ensures r.music == map[] && r.filters == map["current" := Str(filter)]
    {
      StoryRow(user.value, media.value.dataUrl, EditorMediaType(media.value.mime), caption,
               texts, stickers, gifs, MusicData(None), map["current" := Str(filter)])
    }

    constructor (user: Option<Id>, stories: seq<StoryRow>)
      ensures Valid() && Cleared()
      ensures this.user == user && this.stories == stories
      ensures textColor == "#ffffff" && textBackground == "transparent" && fontSize == 24
    {
      this.user := user;
      media := None;
      preview := "";
      caption := "";
      texts := [];
      stickers := [];
      gifs := [];
      tool := None;
      filter := NoFilter;
      newText := "";
      textColor := "#ffffff";
      textBackground := "transparent";
      fontSize := 24;
      this.stories := stories;
    }

    method SelectFile(file: Option<Compose.File>, url: string)
      modifies this`media, this`preview
      ensures file.None? || file.value.size > MaxStoryBytes ==> media == old(media) && preview == old(preview)
      ensures file.Some? && file.value.size <= MaxStoryBytes ==> media == file && preview == url
    {
      if file.None? || file.value.size > MaxStoryBytes {
        return;
      }
      media := file;
      preview := url;
    }

    /** `addTextOverlay`: as in the advanced editor, but at the fixed spot (50, 50), in Arial, without rotation. */
    method AddText(id: string)
      requires Valid()
      modifies this`texts, this`newText, this`tool
      ensures Valid()
      ensures IsBlank(old(newText)) ==> texts == old(texts) && newText == old(newText) && tool == old(tool)
      ensures !IsBlank(old(newText)) ==>
        texts == old(texts) + [Overlay(id, 50.0, 50.0, Caption(old(newText), textColor, fontSize, PlainFont, Background(textBackground), None))] &&
        newText == "" && tool.None?
    {
      if IsBlank(newText) {
        return;
      }
      var o := Overlay(id, 50.0, 50.0, Caption(newText, textColor, fontSize, PlainFont, Background(textBackground), None));
      texts := texts + [o];
      newText := "";
      tool := None;
    }

    /** `addStickerOverlay`: appends a 40-pixel sticker and closes the tool. */
    method AddSticker(id: string, emoji: string, x: real, y: real)
      requires Valid() && 50.0 <= x < 250.0 && 50.0 <= y < 250.0
      modifies this`stickers, this`tool
      ensures Valid()
      ensures stickers == old(stickers) + [Overlay(id, x, y, Sticker(emoji, 40, None))] && tool.None?
    {
      stickers := stickers + [Overlay(id, x, y, Sticker(emoji, 40, None))];
      tool := None;
    }

    method AddGif(id: string, url: string, x: real, y: real)
      requires Valid() && 50.0 <= x < 250.0 && 50.0 <= y < 250.0
      modifies this`gifs, this`tool
      ensures Valid()
      ensures gifs == old(gifs) + [Overlay(id, x, y, Gif(url, 100))] && tool.None?
    {
      gifs := gifs + [Overlay(id, x, y, Gif(url, 100))];
      tool := None;
    }

    method RemoveText(id: string)
      requires Valid()
      modifies this`texts
      ensures Valid()
      ensures texts == RemoveId(old(texts), id) && stickers == old(stickers) && gifs == old(gifs)
    {
      texts := RemoveId(texts, id);
    }

    method RemoveSticker(id: string)
      requires Valid()
      modifies this`stickers
      ensures Valid()
      ensures stickers == RemoveId(old(stickers), id) && texts == old(texts) && gifs == old(gifs)
    {
      stickers := RemoveId(stickers, id);
    }

    method RemoveGif(id: string)
      requires Valid()
      modifies this`gifs
      ensures Valid()
      ensures gifs == RemoveId(old(gifs), id) && texts == old(texts) && stickers == old(stickers)
    {
      gifs := RemoveId(gifs, id);
    }

    method PressTool(t: Tool)
      modifies this`tool
      ensures tool == Toggle(old(tool), t)
      ensures tool.None? <==> old(tool) == Some(t)
    {
      tool := Toggle(tool, t);
    }

    /** `resetEditor`: as in the advanced editor, without music; the text style and the published stories lie outside the frame. */
    method Reset()
      modifies this`media, this`preview, this`caption, this`texts, this`stickers, this`gifs, this`filter, this`tool, this`newText
      ensures Valid() && Cleared()
    {
      media := None;
      preview := "";
      caption := "";
      texts := [];
      stickers := [];
      gifs := [];
      filter := NoFilter;
      tool := None;
      newText := "";
    }

    method Publish(ok: bool)
      requires Valid()
      modifies this
      ensures Valid()
      ensures user.None? || old(media).None? || !ok ==> unchanged(this)
      ensures user.Some? && old(media).Some? && ok ==> stories == old(stories) + [old(Draft())] && Cleared()
    {
      if user.None? || media.None? || !ok {
        return;
      }
      stories := stories + [Draft()];
      Reset();
    }
  }

  /** The upload dialog. */
  class StoryUpload {
    const user: Option<Id>
    var file: Option<Compose.File>
    var preview: Option<string>
    var caption: string
    var preset: string
    var brightness: nat
    var contrast: nat
    var saturation: nat
    var track: Option<string>
    var labels: seq<Overlay>
    var stickers: seq<Overlay>
    var stories: seq<StoryRow>

    ghost predicate Valid()
      reads this`labels, this`stickers
    {
      (forall i :: 0 <= i < |labels| ==> labels[i].look.Label?) && (forall i :: 0 <= i < |stickers| ==> stickers[i].look.Sticker?)
    }

    /** The fields `handleClose` restores, at their starting values. */
    ghost predicate Closed()
      reads this
    {
      file.None? && preview.None? && caption == "" && preset == NoFilter &&
      brightness == 100 && contrast == 100 && saturation == 100 &&
      track.None? && labels == [] && stickers == []
    }

    /** The row a create inserts: no audio type, the track under `track`, the preset and sliders under `filters`. */
    function Draft(): (r: StoryRow)
      requires user.Some? && file.Some?
      reads this
      ensures r.userId == user.value && r.mediaUrl == file.value.dataUrl && r.content == caption
      ensures r.mediaType == UploadMediaType(file.value.mime) && r.mediaType != Audio
      ensures r.texts == labels && r.stickers == stickers && r.gifs == []
      ensures r.music == TrackData(track)
      ensures r.filters.Keys == {"selected", "brightness", "contrast", "saturation"}
      ensures r.filters["selected"] == Str(preset) && r.filters["brightness"] == Num(brightness)
    {
      var filters := map["selected" := Str(preset), "brightness" := Num(brightness),
                         "contrast" := Num(contrast), "saturation" := Num(saturation)];
      StoryRow(user.value, file.value.dataUrl, UploadMediaType(file.value.mime), caption,
               labels, stickers, [], TrackData(track), filters)
    }

    constructor (user: Option<Id>, stories: seq<StoryRow>)
      ensures Valid() && Closed()
      ensures this.user == user && this.stories == stories
    {
      this.user := user;
      file := None;
      preview := None;
      caption := "";
      preset := NoFilter;
      brightness := 100;
      contrast := 100;
      saturation := 100;
      track := None;
      labels := [];
      stickers := [];
      this.stories := stories;
    }

    /** `handleFileSelect`: any chosen file is taken, whatever its size, and previewed as its data URL. */
    method SelectFile(chosen: Option<Compose.File>)
      modifies this`file, this`preview
      ensures chosen.None? ==> file == old(file) && preview == old(preview)
      ensures chosen.Some? ==> file == chosen && preview == Some(chosen.value.dataUrl)
    {
      if chosen.Some? {
        file := chosen;
        preview := Some(chosen.value.dataUrl);
      }
    }

    /** `addTextOverlay`: always appends the default white 24-pixel label at (50, 50); there is no blank check. */
    method AddText(id: string)
      requires Valid()
      modifies this`labels
      ensures Valid()
      ensures labels == old(labels) + [Overlay(id, 50.0, 50.0, Label("Your text here", "#ffffff", 24))]
    {
      labels := labels + [Overlay(id, 50.0, 50.0, Label("Your text here", "#ffffff", 24))];
    }

    /** `addSticker`: appends a 32-pixel sticker at a random spot between 15 and 85 percent. */
    method AddSticker(id: string, emoji: string, x: real, y: real)
      requires Valid() && 15.0 <= x < 85.0 && 15.0 <= y < 85.0
      modifies this`stickers
      ensures Valid()
      ensures stickers == old(stickers) + [Overlay(id, x, y, Sticker(emoji, 32, None))]
    {
      stickers := stickers + [Overlay(id, x, y, Sticker(emoji, 32, None))];
    }

    method RemoveText(id: string)
      requires Valid()
      modifies this`labels
      ensures Valid()
      ensures labels == RemoveId(old(labels), id) && stickers == old(stickers)
    {
      labels := RemoveId(labels, id);
    }

    method RemoveSticker(id: string)
      requires Valid()
      modifies this`stickers
      ensures Valid()
      ensures stickers == RemoveId(old(stickers), id) && labels == old(labels)
    {
      stickers := RemoveId(stickers, id);
    }

    /** The label's text input: only the label with that id changes. */
    method EditText(id: string, text: string)
      requires Valid()
      modifies this`labels
      ensures Valid()
      ensures labels == Retexted(old(labels), id, text)
    {
      labels := Retexted(labels, id, text);
    }

    /** The label's colour input: only the label with that id changes. */
    method EditColor(id: string, color: string)
      requires Valid()
      modifies this`labels
      ensures Valid()
      ensures labels == Recoloured(old(labels), id, color)
    {
      labels := Recoloured(labels, id, color);
    }

    /** A track button: the chosen track's button clears the choice, another track's button replaces it. */
    method PickTrack(t: string)
      modifies this`track
      ensures track == Toggle(old(track), t)
      ensures track.None? <==> old(track) == Some(t)
    {
      track := Toggle(track, t);
    }

    /** `handleClose`: file, preview, caption, preset, sliders, track and both overlay lists go back to their starting values. */
    method Close()
      modifies this`file, this`preview, this`caption, this`preset, this`brightness, this`contrast, this`saturation, this`track, this`labels, this`stickers
      ensures Valid() && Closed()
    {
      file := None;
      preview := None;
      caption := "";
      preset := NoFilter;
      brightness := 100;
      contrast := 100;
      saturation := 100;
      track := None;
      labels := [];
      stickers := [];
    }

    /**
     * `handleCreateStory`: without a user or a file nothing happens. A
     * successful insert adds the draft's row and closes the dialog; a failed
     * one leaves everything as it was.
     */
    method Create(ok: bool)
      requires Valid()
      modifies this
      ensures Valid()
      ensures user.None? || old(file).None? || !ok ==> unchanged(this)
      ensures user.Some? && old(file).Some? && ok ==> stories == old(stories) + [old(Draft())] && Closed()
    {
      if user.None? || file.None? || !ok {
        return;
      }
      stories := stories + [Draft()];
      Close();
    }
  }
}
