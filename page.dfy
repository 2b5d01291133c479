/**
  The wake-up page's controller: the component state of `Home` as the fields of a class,
  one method per event handler, and the bodies of the two `setInterval` polls as explicit
  tick methods that the environment calls once per second while their effect is active.
*/
module AlarmPage {
  import opened Wrappers
  import opened AlarmTiming
  import opened AlarmStorage

  class AlarmController {
    var alarmTime: string
    var photos: seq<string>
    var selectedPhoto: Option<string>
    var isAlarmSet: bool
    var timeRemaining: int
    var showPenalty: bool
    var penaltyCountdown: int
    /** The browser's storage, shared with every other page of the origin. */
    const store: Store

    /** The countdown is within [0, 10] and the seconds shown are within one day. */
    ghost predicate Valid()
      reads this
    {
      && 0 <= timeRemaining <= DayMs / SecondMs
      && 0 <= penaltyCountdown <= PenaltySeconds
    }

    /** The `useState` initial values of the first render. */
    constructor (store: Store)
      ensures Valid()
      ensures this.store == store
      ensures alarmTime == "" && photos == [] && selectedPhoto == None
      ensures !isAlarmSet && timeRemaining == 0 && !showPenalty
      ensures penaltyCountdown == PenaltySeconds
    {
      this.store := store;
      alarmTime := "";
      photos := [];
      selectedPhoto := None;
      isAlarmSet := false;
      timeRemaining := 0;
      showPenalty := false;
      penaltyCountdown := PenaltySeconds;
    }

    /**
      The mount effect: a stored alarm restores the time and its photos and arms the page;
      a stored photo list then takes precedence over the alarm's photos. Storage is only read.
    */
    method Mount()
      requires Valid()
      modifies this
      ensures Valid()
      ensures old(store.LoadAlarm()).Some? ==> isAlarmSet && alarmTime == old(store.LoadAlarm()).value.time
      ensures old(store.LoadAlarm()).None? ==> isAlarmSet == old(isAlarmSet) && alarmTime == old(alarmTime)
      ensures photos ==
        if old(store.LoadPhotos()).Some? then old(store.LoadPhotos()).value
        else if old(store.LoadAlarm()).Some? then old(store.LoadAlarm()).value.photos.GetOr([])
        else old(photos)
      ensures selectedPhoto == old(selectedPhoto) && showPenalty == old(showPenalty)
      ensures timeRemaining == old(timeRemaining) && penaltyCountdown == old(penaltyCountdown)
      ensures store.items == old(store.items)
    {
      var savedAlarm := store.LoadAlarm();
      var savedPhotos := store.LoadPhotos();
      if savedAlarm.Some? {
        alarmTime := savedAlarm.value.time;
        photos := savedAlarm.value.photos.GetOr([]);
        isAlarmSet := true;
      }
      if savedPhotos.Some? {
        photos := savedPhotos.value;
      }
    }

    /**
      The "Alarm Time" input's change event (disabled while the alarm is set): the input
      holds "" or a well-formed "HH:MM".
    */
    method EditAlarmTime(value: string)
      requires Valid()
      requires value == "" || WellFormedTime(value)
      modifies this
      ensures Valid()
      ensures alarmTime == value
      ensures photos == old(photos) && selectedPhoto == old(selectedPhoto) && isAlarmSet == old(isAlarmSet)
      ensures timeRemaining == old(timeRemaining) && showPenalty == old(showPenalty)
      ensures penaltyCountdown == old(penaltyCountdown)
    {
      alarmTime := value;
    }

    /**
      One alarm-poll tick at the sampled instant `now` (the poll runs only while the alarm is
      set and the time is non-empty). It shows the whole seconds left to the next occurrence
      of the alarm time. Its fire branch is never taken: the tick leaves the penalty state,
      the selected photo and storage as they were.
    */
    method AlarmTick(now: int)
      requires Valid()
      requires isAlarmSet && WellFormedTime(alarmTime)
      modifies this
      ensures Valid()
      ensures alarmTime == old(alarmTime) && photos == old(photos) && isAlarmSet == old(isAlarmSet)
      ensures timeRemaining == SecondsRemaining(Diff(now, ParseHours(alarmTime), ParseMinutes(alarmTime)))
      ensures showPenalty == old(showPenalty) && selectedPhoto == old(selectedPhoto)
      ensures penaltyCountdown == old(penaltyCountdown)
    {
      var hours, minutes := ParseHours(alarmTime), ParseMinutes(alarmTime);
      var alarmDate := TodayAt(now, hours, minutes);
      if alarmDate <= now {
        alarmDate := alarmDate + DayMs;
      }
      var diff := alarmDate - now;
      timeRemaining := SecondsRemaining(diff);
      TickRemainingBounded(now, hours, minutes);
      if diff <= 0 {
        // The branch that would call TriggerAlarm(): the target lies strictly after `now`,
        // so `diff` is positive and no tick ever gets here.
        assert false;
      }
    }

    /**
      `triggerAlarm`: flags a photo chosen at random from the list and shows the penalty
      screen. With no photos there is nothing to pick (`photos[0]` is undefined).
    */
    method TriggerAlarm()
      requires Valid()
      modifies this
      ensures Valid()
      ensures showPenalty
      ensures |photos| == 0 ==> selectedPhoto == None
      ensures |photos| > 0 ==> selectedPhoto.Some? && selectedPhoto.value in photos
      ensures alarmTime == old(alarmTime) && photos == old(photos) && isAlarmSet == old(isAlarmSet)
      ensures timeRemaining == old(timeRemaining) && penaltyCountdown == old(penaltyCountdown)
    {
      if |photos| == 0 {
        selectedPhoto := None;
      } else {
        var i :| 0 <= i < |photos|;
        selectedPhoto := Some(photos[i]);
      }
      showPenalty := true;
    }

    /**
      `handleSetAlarm`: with a time and at least one photo, stores the alarm record and arms
      the page; otherwise nothing happens.
    */
    method SetAlarm()
      requires Valid()
      modifies this, store
      ensures Valid()
      ensures old(alarmTime == "" || |photos| == 0) ==>
        && isAlarmSet == old(isAlarmSet) && showPenalty == old(showPenalty)
        && selectedPhoto == old(selectedPhoto) && store.items == old(store.items)
      ensures old(alarmTime != "" && |photos| > 0) ==>
        && isAlarmSet && !showPenalty && selectedPhoto == None
        && store.items == (if store.hasWindow then old(store.items)[AlarmKey := EncodeAlarm(Alarm(alarmTime, photos))]
                           else old(store.items))
        && (store.hasWindow ==> store.LoadAlarm() == Some(Reloaded(Alarm(alarmTime, photos))))
      ensures store.LoadPhotos() == old(store.LoadPhotos())
      ensures alarmTime == old(alarmTime) && photos == old(photos)
      ensures timeRemaining == old(timeRemaining) && penaltyCountdown == old(penaltyCountdown)
    {
      if alarmTime != "" && |photos| > 0 {
        store.SaveAlarm(Alarm(alarmTime, photos));
        isAlarmSet := true;
        showPenalty := false;
        selectedPhoto := None;
      }
    }

    /** `handleWakeUp`: removes the stored alarm and disarms the page; time, photos and the stored photos stay. */
    method WakeUp()
      requires Valid()
      modifies this, store
      ensures Valid()
      ensures !isAlarmSet && !showPenalty && selectedPhoto == None
      ensures store.items == if store.hasWindow then old(store.items) - {AlarmKey} else old(store.items)
      ensures store.LoadAlarm() == None
      ensures store.LoadPhotos() == old(store.LoadPhotos())
      ensures alarmTime == old(alarmTime) && photos == old(photos)
      ensures timeRemaining == old(timeRemaining) && penaltyCountdown == old(penaltyCountdown)
    {
      store.ClearAlarm();
      isAlarmSet := false;
      showPenalty := false;
      selectedPhoto := None;
    }

    /** `handleCancelPenalty`: leaves the penalty screen and zeroes the time shown; the alarm stays set. */
    method CancelPenalty()
      requires Valid()
      modifies this
      ensures Valid()
      ensures !showPenalty && selectedPhoto == None && timeRemaining == 0
      ensures isAlarmSet == old(isAlarmSet) && alarmTime == old(alarmTime) && photos == old(photos)
      ensures penaltyCountdown == old(penaltyCountdown)
      ensures store.items == old(store.items)
    {
      showPenalty := false;
      selectedPhoto := None;
      timeRemaining := 0;
    }

    /**
      One tick of the penalty countdown (the poll runs only while the penalty screen is shown
      and the countdown is positive): one second less, and 0 from 1.
    */
    method PenaltyTick()
      requires Valid()
      requires showPenalty && penaltyCountdown > 0
      modifies this
      ensures Valid()
      ensures penaltyCountdown == NextCountdown(old(penaltyCountdown))
      ensures 0 <= penaltyCountdown < old(penaltyCountdown)
      ensures alarmTime == old(alarmTime) && photos == old(photos) && selectedPhoto == old(selectedPhoto)
      ensures isAlarmSet == old(isAlarmSet) && timeRemaining == old(timeRemaining) && showPenalty == old(showPenalty)
    {
      if penaltyCountdown <= 1 {
        penaltyCountdown := 0;
      } else {
        penaltyCountdown := penaltyCountdown - 1;
      }
    }

    /** The "Set New Alarm" button: only hides the penalty screen. */
    method SetNewAlarm()
      requires Valid()
      modifies this
      ensures Valid()
      ensures !showPenalty
      ensures alarmTime == old(alarmTime) && photos == old(photos) && selectedPhoto == old(selectedPhoto)
      ensures isAlarmSet == old(isAlarmSet) && timeRemaining == old(timeRemaining)
      ensures penaltyCountdown == old(penaltyCountdown)
    {
      showPenalty := false;
    }
  }

  /**
    A session: one photo is stored, the page mounts, the user picks 07:00 and sets the alarm,
    a tick samples 07:00:01 of `day`, then the user presses "I woke up". The tick aims at
    07:00 of the next day and does not fire; waking up removes the alarm and keeps the photo.
  */
  method SetForSevenScenario(day: int) returns (remaining: int, penalty: bool, reloaded: Option<seq<string>>)
    ensures remaining == 86399 && !penalty
    ensures reloaded == Some(["p1"])
  {
    var store := new Store(true);
    store.SavePhotos(["p1"]);
    var page := new AlarmController(store);
    page.Mount();
    page.EditAlarmTime(FormatTime(7, 0));
    page.SetAlarm();
    assert page.isAlarmSet && ParseHours(page.alarmTime) == 7 && ParseMinutes(page.alarmTime) == 0;
    page.AlarmTick(day * DayMs + 7 * HourMs + SecondMs);
    OneSecondPastAlarm(day);
    remaining, penalty := page.timeRemaining, page.showPenalty;
    page.WakeUp();
    reloaded := store.LoadPhotos();
  }
}
