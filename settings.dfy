/**
 * The notification and privacy settings panels. Each holds a flat object of
 * boolean switches with defaults, overlays what the user's row stores on
 * load, and writes the whole object back when a switch is flipped; the
 * panel shows the new object only once the write has succeeded.
 */
module Settings {
  import opened Wrappers
  import opened Rows

  type Switches = map<string, bool>

  /** The notification panel's defaults: every switch on except story views. */
  function NotificationDefaults(): (d: Switches)
    ensures d.Keys == {"likes_comments", "new_followers", "direct_messages", "story_views", "post_shares", "message_reactions"}
    ensures forall k :: k in d ==> (d[k] <==> k != "story_views")
  {
    map["likes_comments" := true, "new_followers" := true, "direct_messages" := true,
        "story_views" := false, "post_shares" := true, "message_reactions" := true]
  }

  /** The privacy panel's defaults: a public account that shows activity and does not hide last seen. */
  function PrivacyDefaults(): (d: Switches)
    ensures d.Keys == {"private_account", "show_activity_status", "allow_story_mentions", "allow_message_requests", "hide_last_seen"}
    ensures forall k :: k in d ==> (d[k] <==> k != "private_account" && k != "hide_last_seen")
  {
    map["private_account" := false, "show_activity_status" := true, "allow_story_mentions" := true,
        "allow_message_requests" := true, "hide_last_seen" := false]
  }

  /** `{ ...prev, ...stored }`: stored values win, every other key keeps its value. */
  function Overlay(prev: Switches, stored: Switches): (r: Switches)
    ensures r.Keys == prev.Keys + stored.Keys
    ensures forall k :: k in stored ==> r[k] == stored[k]
    ensures forall k :: k in prev && k !in stored ==> r[k] == prev[k]
  {
    prev + stored
  }

  /** `{ ...settings, [key]: !settings[key] }`. */
  function Toggled(s: Switches, key: string): (r: Switches)
    requires key in s
    ensures r.Keys == s.Keys
    ensures r[key] == !s[key]
    ensures forall k :: k in s && k != key ==> r[k] == s[k]
  {
    s[key := !s[key]]
  }

  /** Flipping a switch twice gives back the settings. */
  lemma ToggleTwice(s: Switches, key: string)
    requires key in s
    ensures Toggled(Toggled(s, key), key) == s
  {
  }

  /** Flips of different switches commute. */
  lemma TogglesCommute(s: Switches, a: string, b: string)
    requires a in s && b in s
    ensures Toggled(Toggled(s, a), b) == Toggled(Toggled(s, b), a)
  {
  }

  /** Loading twice is loading once. */
  lemma OverlayIdempotent(prev: Switches, stored: Switches)
    ensures Overlay(Overlay(prev, stored), stored) == Overlay(prev, stored)
  {
  }

  class SettingsPanel {
    const user: Option<Id>
    const defaults: Switches
    /** The settings column of the user's row (`null` is `None`). */
    var stored: Option<Switches>
    var settings: Switches

    /** Every default switch is always present. */
    ghost predicate Valid()
      reads this`settings
    {
      defaults.Keys <= settings.Keys
    }

    constructor (user: Option<Id>, defaults: Switches, stored: Option<Switches>)
      ensures Valid()
      ensures this.user == user && this.defaults == defaults && this.stored == stored && settings == defaults
    {
      this.user := user;
      this.defaults := defaults;
      this.stored := stored;
      settings := defaults;
    }

    /** The fetch on mount: with a user and a successful read, the stored object is overlaid on the current one. */
    method Fetch(ok: bool)
      requires Valid()
      modifies this`settings
      ensures Valid()
      ensures user.Some? && ok && stored.Some? ==> settings == Overlay(old(settings), stored.value)
      ensures !(user.Some? && ok && stored.Some?) ==> settings == old(settings)
    {
      if user.None? || !ok || stored.None? {
        return;
      }
      settings := Overlay(settings, stored.value);
    }

    /** The update: the whole object is written; the panel shows it only when the write succeeds. */
    method Update(next: Switches, ok: bool)
      requires Valid() && defaults.Keys <= next.Keys
      modifies this`stored, this`settings
      ensures Valid()
      ensures user.Some? && ok ==> stored == Some(next) && settings == next
      ensures !(user.Some? && ok) ==> stored == old(stored) && settings == old(settings)
    {
      if user.None? || !ok {
        return;
      }
      stored := Some(next);
      settings := next;
    }

    /** `handleToggle(key)`: requests the settings with that one switch flipped. */
    method Toggle(key: string, ok: bool)
      requires Valid() && key in defaults
      modifies this`stored, this`settings
      ensures Valid()
      ensures user.Some? && ok ==> settings == Toggled(old(settings), key) && stored == Some(settings)
      ensures !(user.Some? && ok) ==> stored == old(stored) && settings == old(settings)
    {
      Update(Toggled(settings, key), ok);
    }
  }
}
