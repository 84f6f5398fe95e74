/**
 * The three required settings read from the environment, and the order in
 * which their absence is reported.
 */
module Config {
  import opened Wrappers

  datatype Settings = Settings(feedURL: string, botAPIToken: string, chatID: string)

  datatype ConfigError = FeedURLNotSet | BotAPITokenNotSet | ChatIDNotSet

  /** The environment variable each error names. */
  function VariableName(e: ConfigError): string
  {
    match e
    case FeedURLNotSet => "RSS_FEED_URL"
    case BotAPITokenNotSet => "TELEGRAM_BOT_API_TOKEN"
    case ChatIDNotSet => "TELEGRAM_CHAT_ID"
  }

  function ErrorMessage(e: ConfigError): string
  {
    "environment variable " + VariableName(e) + " not set"
  }

  /**
   * The first empty setting, in the order feed URL, bot token, chat id,
   * or None when all three are set.
   */
  function Validate(s: Settings): (r: Option<ConfigError>)
    ensures r.None? <==> s.feedURL != "" && s.botAPIToken != "" && s.chatID != ""
    ensures r == Some(FeedURLNotSet) <==> s.feedURL == ""
    ensures r == Some(BotAPITokenNotSet) <==> s.feedURL != "" && s.botAPIToken == ""
    ensures r == Some(ChatIDNotSet) <==> s.feedURL != "" && s.botAPIToken != "" && s.chatID == ""
  {
    if s.feedURL == "" then Some(FeedURLNotSet)
    else if s.botAPIToken == "" then Some(BotAPITokenNotSet)
    else if s.chatID == "" then Some(ChatIDNotSet)
    else None
  }

  /** Each missing setting has its own message. */
  lemma ErrorMessagesDistinct(e1: ConfigError, e2: ConfigError)
    ensures ErrorMessage(e1) == ErrorMessage(e2) <==> e1 == e2
  {
  }
}
