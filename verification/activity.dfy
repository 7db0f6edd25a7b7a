/** The integrations activity feed: recent integration, user-sync and token
    usage rows become activities, which are then sorted newest first and cut to
    five.

    The rows of the five queries over the last day are parameters, and so is
    the current time `now` (milliseconds since the epoch) that stands in for a
    missing timestamp. Timestamps are whole milliseconds; their ISO rendering
    is left out. */
module Activity {
  import opened Common
  import opened Text
  import opened Sorting

  /** A Slack team or Teams tenant mapping. */
  datatype IntegrationRow = IntegrationRow(status: Option<string>, updatedAt: Option<int>)

  datatype WhatsAppRow = WhatsAppRow(whatsappStatus: JsValue, updatedAt: Option<int>)

  /** A user added by automatic provisioning. */
  datatype UserSyncRow = UserSyncRow(name: Option<string>, email: Option<string>, addedBy: string, createdAt: Option<int>)

  /** The token-usage aggregate; a missing row reads as no messages. */
  datatype TokenUsageRow = TokenUsageRow(messages: int, lastTime: Option<int>)

  datatype Kind = Success | Warning | Info

  datatype Activity = Activity(id: string, kind: Kind, message: string, timestamp: int)

  /** The two chat integrations, which are mapped alike. */
  datatype Provider = Slack | Teams

  function ProviderName(p: Provider): string
  {
    match p
    case Slack => "Slack"
    case Teams => "Teams"
  }

  function IdPrefix(p: Provider): string
  {
    match p
    case Slack => "slack-"
    case Teams => "teams-"
  }

  function Timestamp(a: Activity): int
  {
    a.timestamp
  }

  /** `x ? new Date(x) : new Date()`. */
  function TimeOr(t: Option<int>, now: int): int
  {
    if t.Some? then t.value else now
  }

  const IntegrationWord := " integration "

  function ConnectedWord(connected: bool): string
  {
    if connected then "connected" else "disconnected"
  }

  /** The status of a connected Slack team or Teams tenant. */
  const Active := "active"

  /** A Slack or Teams mapping: a success saying "connected" exactly when its
      status is `active`, a warning saying "disconnected" otherwise. */
  function IntegrationActivity(p: Provider, r: IntegrationRow, now: int): (a: Activity)
    ensures a.kind == Success <==> r.status == Some(Active)
    ensures a.kind == Warning <==> r.status != Some(Active)
    ensures a.message == ProviderName(p) + IntegrationWord + ConnectedWord(a.kind == Success)
    ensures a.timestamp == TimeOr(r.updatedAt, now)
  {
    var ts := TimeOr(r.updatedAt, now);
    var active := OrElse(r.status, "") == Active;
    Activity(IdPrefix(p) + IntToString(ts), if active then Success else Warning,
             ProviderName(p) + IntegrationWord + ConnectedWord(active), ts)
  }

  /** A WhatsApp account: a success exactly when its status is truthy. */
  function WhatsAppActivity(r: WhatsAppRow, now: int): (a: Activity)
    ensures a.kind == Success <==> Truthy(r.whatsappStatus)
    ensures a.kind == Warning <==> !Truthy(r.whatsappStatus)
    ensures a.message == "WhatsApp integration " + ConnectedWord(a.kind == Success)
    ensures a.timestamp == TimeOr(r.updatedAt, now)
  {
    var ts := TimeOr(r.updatedAt, now);
    var connected := Truthy(r.whatsappStatus);
    Activity("whatsapp-" + IntToString(ts), if connected then Success else Warning,
             "WhatsApp integration " + ConnectedWord(connected), ts)
  }

  const SlackProvisioner := "slack_auto_provision"

  /** `r.name || r.email || 'Unknown user'`. */
  function UserLabel(r: UserSyncRow): (shown: string)
    ensures shown != ""
    ensures Present(r.name) ==> shown == r.name.value
    ensures !Present(r.name) && Present(r.email) ==> shown == r.email.value
  {
    if Present(r.name) then r.name.value
    else if Present(r.email) then r.email.value
    else "Unknown user"
  }

  /** A provisioned user: credited to Slack exactly when Slack provisioned it,
      and to Teams otherwise. */
  function UserSyncActivity(r: UserSyncRow, now: int): (a: Activity)
    ensures a.kind == Info
    ensures a.message == UserLabel(r) + " provisioned via " + (if r.addedBy == SlackProvisioner then "Slack" else "Teams")
    ensures a.timestamp == TimeOr(r.createdAt, now)
  {
    var ts := TimeOr(r.createdAt, now);
    var provider := if r.addedBy == SlackProvisioner then Slack else Teams;
    var shown := UserLabel(r);
    Activity("user-sync-" + IntToString(ts) + "-" + shown, Info,
             shown + " provisioned via " + ProviderName(provider), ts)
  }

  /** The token-usage activity, present exactly when some message was processed. */
  function TokenActivity(u: TokenUsageRow, now: int): (a: Option<Activity>)
    ensures a.Some? <==> u.messages > 0
    ensures a.Some? ==> (a.value.kind == Info && a.value.timestamp == TimeOr(u.lastTime, now)
      && a.value.message == IntToString(u.messages) + " messages processed")
  {
    if u.messages > 0 then
      var ts := TimeOr(u.lastTime, now);
      Some(Activity("token-usage-" + IntToString(ts), Info, IntToString(u.messages) + " messages processed", ts))
    else None
  }

  /** One activity per Slack or Teams mapping, in the order of the rows. */
  function Integrations(p: Provider, rows: seq<IntegrationRow>, now: int): (r: seq<Activity>)
    ensures |r| == |rows|
  {
    if rows == [] then []
    else Integrations(p, rows[..|rows| - 1], now) + [IntegrationActivity(p, rows[|rows| - 1], now)]
  }

  /** One activity per WhatsApp account, in the order of the rows. */
  function WhatsApps(rows: seq<WhatsAppRow>, now: int): (r: seq<Activity>)
    ensures |r| == |rows|
  {
    if rows == [] then []
    else WhatsApps(rows[..|rows| - 1], now) + [WhatsAppActivity(rows[|rows| - 1], now)]
  }

  /** One activity per provisioned user, in the order of the rows. */
  function UserSyncs(rows: seq<UserSyncRow>, now: int): (r: seq<Activity>)
    ensures |r| == |rows|
  {
    if rows == [] then []
    else UserSyncs(rows[..|rows| - 1], now) + [UserSyncActivity(rows[|rows| - 1], now)]
  }

  function TokenActivities(u: TokenUsageRow, now: int): seq<Activity>
  {
    if TokenActivity(u, now).Some? then [TokenActivity(u, now).value] else []
  }

  /** Every activity the handler assembles, in the order it pushes them. */
  function Assembled(slack: seq<IntegrationRow>, teams: seq<IntegrationRow>, whatsapp: seq<WhatsAppRow>,
                     syncs: seq<UserSyncRow>, usage: TokenUsageRow, now: int): (r: seq<Activity>)
    ensures |r| == |slack| + |teams| + |whatsapp| + |syncs| + (if usage.messages > 0 then 1 else 0)
  {
    Integrations(Slack, slack, now) + Integrations(Teams, teams, now) + WhatsApps(whatsapp, now)
    + UserSyncs(syncs, now) + TokenActivities(usage, now)
  }

  lemma IntegrationsSnoc(p: Provider, rows: seq<IntegrationRow>, i: nat, now: int)
    requires i < |rows|
    ensures Integrations(p, rows[..i + 1], now) == Integrations(p, rows[..i], now) + [IntegrationActivity(p, rows[i], now)]
  {
    assert rows[..i + 1][..i] == rows[..i];
  }

  /** `for (const r of rows) activities.push(...)` over Slack or Teams mappings. */
  method PushIntegrations(activities: seq<Activity>, p: Provider, rows: seq<IntegrationRow>, now: int)
    returns (out: seq<Activity>)
    ensures out == activities + Integrations(p, rows, now)
  {
    out := activities;
    for i := 0 to |rows|
      invariant out == activities + Integrations(p, rows[..i], now)
    {
      var e := IntegrationActivity(p, rows[i], now);
      IntegrationsSnoc(p, rows, i, now);
      out := out + [e];
      assert out == activities + (Integrations(p, rows[..i], now) + [e]);
    }
    assert rows[..|rows|] == rows;
  }

  lemma WhatsAppsSnoc(rows: seq<WhatsAppRow>, i: nat, now: int)
    requires i < |rows|
    ensures WhatsApps(rows[..i + 1], now) == WhatsApps(rows[..i], now) + [WhatsAppActivity(rows[i], now)]
  {
    assert rows[..i + 1][..i] == rows[..i];
  }

  /** The loop over WhatsApp accounts. */
  method PushWhatsApps(activities: seq<Activity>, rows: seq<WhatsAppRow>, now: int) returns (out: seq<Activity>)
    ensures out == activities + WhatsApps(rows, now)
  {
    out := activities;
    for i := 0 to |rows|
      invariant out == activities + WhatsApps(rows[..i], now)
    {
      var e := WhatsAppActivity(rows[i], now);
      WhatsAppsSnoc(rows, i, now);
      out := out + [e];
      assert out == activities + (WhatsApps(rows[..i], now) + [e]);
    }
    assert rows[..|rows|] == rows;
  }

  lemma UserSyncsSnoc(rows: seq<UserSyncRow>, i: nat, now: int)
    requires i < |rows|
    ensures UserSyncs(rows[..i + 1], now) == UserSyncs(rows[..i], now) + [UserSyncActivity(rows[i], now)]
  {
    assert rows[..i + 1][..i] == rows[..i];
  }

  /** The loop over provisioned users. */
  method PushUserSyncs(activities: seq<Activity>, rows: seq<UserSyncRow>, now: int) returns (out: seq<Activity>)
    ensures out == activities + UserSyncs(rows, now)
  {
    out := activities;
    for i := 0 to |rows|
      invariant out == activities + UserSyncs(rows[..i], now)
    {
      var e := UserSyncActivity(rows[i], now);
      UserSyncsSnoc(rows, i, now);
      out := out + [e];
      assert out == activities + (UserSyncs(rows[..i], now) + [e]);
    }
    assert rows[..|rows|] == rows;
  }

  /** The four loops and the conditional push of the handler, in its order. */
  method AssembleActivities(slack: seq<IntegrationRow>, teams: seq<IntegrationRow>, whatsapp: seq<WhatsAppRow>,
                            syncs: seq<UserSyncRow>, usage: TokenUsageRow, now: int)
    returns (activities: seq<Activity>)
    ensures activities == Assembled(slack, teams, whatsapp, syncs, usage, now)
  {
    activities := PushIntegrations([], Slack, slack, now);
    assert activities == Integrations(Slack, slack, now);
    activities := PushIntegrations(activities, Teams, teams, now);
    activities := PushWhatsApps(activities, whatsapp, now);
    activities := PushUserSyncs(activities, syncs, now);
    var before := activities;
    if usage.messages > 0 {
      activities := activities + [TokenActivity(usage, now).value];
    }
    assert activities == before + TokenActivities(usage, now);
  }

  /** At most this many activities are returned. */
  const FeedSize := 5

  /** `activities.sort(newest first).slice(0, 5)`. */
  function Newest(all: seq<Activity>): seq<Activity>
  {
    var sorted := SortDesc(all, Timestamp);
    sorted[..Min(FeedSize, |sorted|)]
  }

  /** The feed: the activities in order of assembly, sorted newest first and cut to five. */
  method RecentActivity(slack: seq<IntegrationRow>, teams: seq<IntegrationRow>, whatsapp: seq<WhatsAppRow>,
                        syncs: seq<UserSyncRow>, usage: TokenUsageRow, now: int)
    returns (feed: seq<Activity>)
    ensures feed == Newest(Assembled(slack, teams, whatsapp, syncs, usage, now))
  {
    var activities := AssembleActivities(slack, teams, whatsapp, syncs, usage, now);
    var sorted := SortDesc(activities, Timestamp);
    if |sorted| > FeedSize {
      feed := sorted[..FeedSize];
    } else {
      feed := sorted;
    }
  }

  /** The feed holds five activities, or all of them when there are fewer,
      newest first. Together with the activities it leaves out it is exactly
      what was assembled, and none it leaves out is newer than one it keeps. */
  lemma NewestFeed(all: seq<Activity>)
    ensures var feed := Newest(all);
      var sorted := SortDesc(all, Timestamp);
      && |feed| == Min(FeedSize, |all|)
      && NonIncreasing(feed, Timestamp)
      && multiset(feed) + multiset(sorted[|feed|..]) == multiset(all)
      && forall i, j :: 0 <= i < |feed| <= j < |sorted| ==> feed[i].timestamp >= sorted[j].timestamp
  {
    var sorted := SortDesc(all, Timestamp);
    SortDescOrdered(all, Timestamp);
    assert |sorted| == |multiset(sorted)| == |all|;
    TakeLargest(sorted, Timestamp, Min(FeedSize, |sorted|));
  }

  /** Activities with the same timestamp keep their order of assembly: those
      in the feed are the first ones of that timestamp among all assembled. */
  lemma NewestStable(all: seq<Activity>, v: int)
    ensures var feed := Newest(all);
      && |WithKey(feed, Timestamp, v)| <= |WithKey(all, Timestamp, v)|
      && WithKey(feed, Timestamp, v) == WithKey(all, Timestamp, v)[..|WithKey(feed, Timestamp, v)|]
  {
    var sorted := SortDesc(all, Timestamp);
    WithKeyPrefix(sorted, Timestamp, v, Min(FeedSize, |sorted|));
    SortDescStable(all, Timestamp, v);
  }
}
