/**
  The persistence layer of the wake-up page: an `Alarm` record and a photo list kept under
  two fixed keys of the browser's `localStorage`.

  `localStorage` follows the `Storage` interface of section 12.2.1 of the WHATWG HTML Living
  Standard: `getItem` answers null for an absent key, `setItem` replaces a key's value and
  `removeItem` deletes the key. A stored value is represented by the JSON value its text
  denotes; `JSON.stringify` followed by `JSON.parse` is the identity on such values, and the
  text is never empty, so a present key always passes the `if (saved)` test. Every write
  here succeeds: the exceptions the standard lets `setItem` raise when the quota is exceeded,
  and those raised when storage is disabled, are not modelled.
*/
module AlarmStorage {
  import opened Wrappers

  const AlarmKey: string := "wake-up-alarm"
  const PhotosKey: string := "wake-up-photos"

  /** The `Alarm` record: the armed "HH:MM" and the photos (data URLs) it may reveal. */
  datatype Alarm = Alarm(time: string, photos: seq<string>)

  /**
    A stored alarm as the page reads it back. `photos` is None when the record has no
    `photos` array (the case the page guards with `savedAlarm.photos || []`).
  */
  datatype LoadedAlarm = LoadedAlarm(time: string, photos: Option<seq<string>>)

  /** What `loadAlarm` gives back for a record `saveAlarm` wrote. */
  function Reloaded(a: Alarm): LoadedAlarm {
    LoadedAlarm(a.time, Some(a.photos))
  }

  /** A JSON value, as far as these records need one. */
  datatype Json =
    | JNull
    | JString(str: string)
    | JArray(elems: seq<Json>)
    | JObject(members: map<string, Json>)

  // ---------------------------------------------------------------------------
  // JSON.stringify / JSON.parse of the two record shapes

  /** The JSON array elements of a list of strings. */
  function EncodeStrings(ss: seq<string>): (js: seq<Json>)
    ensures |js| == |ss|
    ensures forall i :: 0 <= i < |ss| ==> js[i] == JString(ss[i])
  {
    if ss == [] then [] else [JString(ss[0])] + EncodeStrings(ss[1..])
  }

  /** The strings of a JSON array whose every element is a string; None otherwise. */
  function DecodeStrings(js: seq<Json>): (r: Option<seq<string>>)
    ensures r.Some? <==> forall i :: 0 <= i < |js| ==> js[i].JString?
    ensures r.Some? ==> |r.value| == |js| && forall i :: 0 <= i < |js| ==> r.value[i] == js[i].str
  {
    if js == [] then Some([])
    else if !js[0].JString? then None
    else match DecodeStrings(js[1..])
      case None => None
      case Some(rest) => Some([js[0].str] + rest)
  }

  /** Decoding undoes encoding. */
  lemma {:induction false} StringsRoundTrip(ss: seq<string>)
    ensures DecodeStrings(EncodeStrings(ss)) == Some(ss)
  {
    if ss != [] {
      var js := EncodeStrings(ss);
      assert js[1..] == EncodeStrings(ss[1..]);
      StringsRoundTrip(ss[1..]);
      assert [ss[0]] + ss[1..] == ss;
    }
  }

  /** Decoding succeeds only on encoded lists: the element arrays and the string lists correspond one to one. */
  lemma {:induction false} StringsDecodeOnlyEncoded(js: seq<Json>, ss: seq<string>)
    requires DecodeStrings(js) == Some(ss)
    ensures js == EncodeStrings(ss)
  {
    if js != [] {
      var rest := DecodeStrings(js[1..]).value;
      assert ss == [js[0].str] + rest;
      StringsDecodeOnlyEncoded(js[1..], rest);
      assert ss[1..] == rest;
      assert [js[0]] + js[1..] == js;
    }
  }

  /** `JSON.stringify(photos)`. */
  function EncodePhotos(photos: seq<string>): (j: Json)
    ensures j.JArray? && |j.elems| == |photos|
    ensures forall i :: 0 <= i < |photos| ==> j.elems[i] == JString(photos[i])
  {
    JArray(EncodeStrings(photos))
  }

  /** `JSON.parse` of the photos entry, read as a list of strings; None for any other shape. */
  function DecodePhotos(j: Json): (r: Option<seq<string>>)
    ensures r.Some? <==> j.JArray? && forall i :: 0 <= i < |j.elems| ==> j.elems[i].JString?
    ensures r.Some? ==> |r.value| == |j.elems| && forall i :: 0 <= i < |j.elems| ==> r.value[i] == j.elems[i].str
  {
    if j.JArray? then DecodeStrings(j.elems) else None
  }

  /** `JSON.stringify({time, photos})`. */
  function EncodeAlarm(a: Alarm): (j: Json)
    ensures j.JObject? && j.members.Keys == {"time", "photos"}
    ensures j.members["time"] == JString(a.time) && j.members["photos"] == EncodePhotos(a.photos)
  {
    JObject(map["time" := JString(a.time), "photos" := EncodePhotos(a.photos)])
  }

  /** `JSON.parse` of the alarm entry: an object with a string `time`; its `photos` read as a list when it is one. */
  function DecodeAlarm(j: Json): (r: Option<LoadedAlarm>)
    ensures r.Some? <==> j.JObject? && "time" in j.members && j.members["time"].JString?
    ensures r.Some? ==> r.value.time == j.members["time"].str
    ensures r.Some? && "photos" !in j.members ==> r.value.photos == None
    ensures r.Some? && "photos" in j.members ==> r.value.photos == DecodePhotos(j.members["photos"])
  {
    match j
    case JObject(fields) =>
      if "time" in fields && fields["time"].JString? then
        var photos := if "photos" in fields then DecodePhotos(fields["photos"]) else None;
        Some(LoadedAlarm(fields["time"].str, photos))
      else None
    case _ => None
  }

  lemma PhotosRoundTrip(photos: seq<string>)
    ensures DecodePhotos(EncodePhotos(photos)) == Some(photos)
  {
    StringsRoundTrip(photos);
  }

  lemma AlarmRoundTrip(a: Alarm)
    ensures DecodeAlarm(EncodeAlarm(a)) == Some(Reloaded(a))
  {
    PhotosRoundTrip(a.photos);
  }

  // ---------------------------------------------------------------------------
  // The store

  /**
    `localStorage` together with the `typeof window !== "undefined"` test every function of
    the layer makes first: without a window (server-side rendering) nothing is read or written.
  */
  class Store {
    const hasWindow: bool
    var items: map<string, Json>

    constructor (hasWindow: bool)
      ensures this.hasWindow == hasWindow && items == map[]
    {
      this.hasWindow := hasWindow;
      items := map[];
    }

    /** `Storage.getItem`: the value under `key`, or null when there is none. */
    function GetItem(key: string): (r: Option<Json>)
      reads this
      ensures r.Some? <==> key in items
      ensures r.Some? ==> r.value == items[key]
    {
      if key in items then Some(items[key]) else None
    }

    /** `Storage.setItem`: `key` now holds `value`, whatever it held before; no other key changes. */
    method SetItem(key: string, value: Json)
      modifies this
      ensures items == old(items)[key := value]
      ensures GetItem(key) == Some(value)
      ensures forall k :: k != key ==> GetItem(k) == old(GetItem(k))
    {
      items := items[key := value];
    }

    /** `Storage.removeItem`: `key` is gone; no other key changes. */
    method RemoveItem(key: string)
      modifies this
      ensures items == old(items) - {key}
      ensures GetItem(key) == None
      ensures forall k :: k != key ==> GetItem(k) == old(GetItem(k))
    {
      items := items - {key};
    }

    /** `loadAlarm()`: the stored alarm, or null without a window or without an entry. */
    function LoadAlarm(): (r: Option<LoadedAlarm>)
      reads this
      ensures !hasWindow ==> r == None
      ensures AlarmKey !in items ==> r == None
      ensures hasWindow && AlarmKey in items ==> r == DecodeAlarm(items[AlarmKey])
    {
      if hasWindow then
        match GetItem(AlarmKey)
        case Some(saved) => DecodeAlarm(saved)
        case None => None
      else None
    }

    /** `loadPhotos()`: the stored photo list, or null without a window or without an entry. */
    function LoadPhotos(): (r: Option<seq<string>>)
      reads this
      ensures !hasWindow ==> r == None
      ensures PhotosKey !in items ==> r == None
      ensures hasWindow && PhotosKey in items ==> r == DecodePhotos(items[PhotosKey])
    {
      if hasWindow then
        match GetItem(PhotosKey)
        case Some(saved) => DecodePhotos(saved)
        case None => None
      else None
    }

    /** `saveAlarm(alarm)`: with a window, the alarm entry is replaced by the whole record; the photo entry is untouched. */
    method SaveAlarm(alarm: Alarm)
      modifies this
      ensures items == if hasWindow then old(items)[AlarmKey := EncodeAlarm(alarm)] else old(items)
      ensures hasWindow ==> LoadAlarm() == Some(Reloaded(alarm))
      ensures !hasWindow ==> LoadAlarm() == None
      ensures LoadPhotos() == old(LoadPhotos())
    {
      if hasWindow {
        SetItem(AlarmKey, EncodeAlarm(alarm));
        AlarmRoundTrip(alarm);
      }
    }

    /** `clearAlarm()`: with a window, the alarm entry is removed; the photo entry is untouched. */
    method ClearAlarm()
      modifies this
      ensures items == if hasWindow then old(items) - {AlarmKey} else old(items)
      ensures LoadAlarm() == None
      ensures LoadPhotos() == old(LoadPhotos())
    {
      if hasWindow {
        RemoveItem(AlarmKey);
      }
    }

    /** `savePhotos(photos)`: with a window, the photo entry is replaced by the whole list; the alarm entry is untouched. */
    method SavePhotos(photos: seq<string>)
      modifies this
      ensures items == if hasWindow then old(items)[PhotosKey := EncodePhotos(photos)] else old(items)
      ensures hasWindow ==> LoadPhotos() == Some(photos)
      ensures !hasWindow ==> LoadPhotos() == None
      ensures LoadAlarm() == old(LoadAlarm())
    {
      if hasWindow {
        SetItem(PhotosKey, EncodePhotos(photos));
        PhotosRoundTrip(photos);
      }
    }
  }

  /** Two saves of the alarm in a row: the second record is read back whole, nothing of the first survives. */
  method LastAlarmWins(store: Store, first: Alarm, second: Alarm)
    requires store.hasWindow
    modifies store
    ensures store.LoadAlarm() == Some(Reloaded(second))
    ensures store.items == old(store.items)[AlarmKey := EncodeAlarm(second)]
  {
    store.SaveAlarm(first);
    store.SaveAlarm(second);
  }
}
