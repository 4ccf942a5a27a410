/** The notifier's configuration and the start-up test that refuses to run
    with the placeholder values written into a fresh configuration file. */
module Configuration {

  /** The fields of the JSON configuration file. `checkInterval` is in
      minutes; the Go `int` is modelled unbounded since it is only compared. */
  datatype Config = Config(
    feedURLs: seq<string>,
    matrixServer: string,
    matrixRoomID: string,
    matrixToken: string,
    checkInterval: int)

  /** The placeholder configuration the program writes when none exists and
      compares the loaded one against. */
  function DefaultConfig(): (c: Config)
    ensures |c.feedURLs| == 2 && c.feedURLs[0] != c.feedURLs[1] && c.checkInterval > 0
  {
    Config(["https://example.com/feed1", "https://example.com/feed2"],
           "https://matrix.org", "!yourroomid:matrix.org", "youraccesstoken", 30)
  }

  /** Deep equality of two URL lists: same length, then element by element. */
  function SameURLs(a: seq<string>, b: seq<string>): (r: bool)
    ensures r <==> |a| == |b| && forall i :: 0 <= i < |a| ==> a[i] == b[i]
  {
    if |a| != |b| then false
    else if a == [] then true
    else a[0] == b[0] && SameURLs(a[1..], b[1..])
  }

  /** Every field of `config` equals the corresponding field of `defaults`. */
  function IsDefaultConfig(config: Config, defaults: Config): (r: bool)
    ensures r <==> config == defaults
  {
    SameURLs(config.feedURLs, defaults.feedURLs) &&
    config.matrixServer == defaults.matrixServer &&
    config.matrixRoomID == defaults.matrixRoomID &&
    config.matrixToken == defaults.matrixToken &&
    config.checkInterval == defaults.checkInterval
  }

  /** Listing the same two placeholder feeds in the other order is already an
      edited configuration: the feed lists are compared in order. */
  lemma FeedOrderMatters()
    ensures !IsDefaultConfig(
      DefaultConfig().(feedURLs := ["https://example.com/feed2", "https://example.com/feed1"]),
      DefaultConfig())
  {
  }
}
