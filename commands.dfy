/**
 * Command recognition of bot.py's `on_message`: the message text is
 * lower-cased and split on whitespace; the first token selects the command,
 * the second is the server address and the rest, re-joined with single
 * spaces, is the optional display name.
 */
module Commands {
  import opened Text

  /** What `on_message` goes on to do with a message. */
  datatype Command =
    | Ignore
    | Start(address: string, name: string)
    | Stop(address: string)
    | Query(address: string)
    | List
    | Help
    | Usage(text: string)

  /** The whitespace tokens of the lower-cased message. */
  function Tokens(message: string): seq<string> {
    Split(Lower(message))
  }

  /** `on_message`; `fromSelf` is whether the bot itself wrote the message. */
  function ParseCommand(fromSelf: bool, message: string): (c: Command)
    ensures c != Ignore ==> !fromSelf && StartsWith(Lower(message), "!") && |Tokens(message)| >= 2
    ensures c.Start? ==> c.address == Tokens(message)[1] && c.name == Join(" ", Tokens(message)[2..])
    ensures c.Stop? || c.Query? ==> c.address == Tokens(message)[1]
    ensures !fromSelf && StartsWith(Lower(message), "!") && |Tokens(message)| >= 2 ==>
              && (c.Start? <==> StartsWith(Lower(message), "!start"))
              && (c.Stop? <==> StartsWith(Lower(message), "!stop"))
              && (c.Query? <==> StartsWith(Lower(message), "!query"))
  {
    if fromSelf then Ignore
    else
      var content := Lower(message);
      var tokens := Split(content);
      if !StartsWith(content, "!") || |tokens| < 2 then Ignore
      else
        var address := tokens[1];
        var name := Join(" ", tokens[2..]);
        if StartsWith(content, "!start") then
          assert content[1] == 's' && content[3] == 'a';
          if address != "" then Start(address, name) else Usage("Usage: !Start <ip_address> [Server Name]")
        else if StartsWith(content, "!stop") then
          assert content[1] == 's' && content[3] == 'o';
          if address != "" then Stop(address) else Usage("Usage: !Stop <ip_address>")
        else if StartsWith(content, "!query") then
          if address != "" then Query(address) else Usage("Usage: !Query <ip_address>")
        else if content == "!list" || content == "!l" then List
        else if content == "!help" || content == "!h" then Help
        else Ignore
  }

  /**
   * Only start, stop and query are ever dispatched: a message equal to
   * "!list", "!l", "!help" or "!h" has a single token and is ignored before
   * its branch is reached, and the address token is never empty, so no usage
   * reply is produced either.
   */
  lemma OnlyStartStopQuery(fromSelf: bool, message: string)
    ensures ParseCommand(fromSelf, message) in {Ignore} || ParseCommand(fromSelf, message).Start?
         || ParseCommand(fromSelf, message).Stop? || ParseCommand(fromSelf, message).Query?
  {
    var content := Lower(message);
    if content == "!list" || content == "!l" || content == "!help" || content == "!h" {
      SplitSpaceless(content);
    }
  }

  /** A bare "!List" (in any letter case) does nothing. */
  lemma BareListIgnored(message: string)
    requires Lower(message) == "!list"
    ensures ParseCommand(false, message) == Ignore
  {
    SplitSpaceless(Lower(message));
  }

  /**
   * The address of a start command is a single non-empty token, and the
   * display name splits back into exactly the remaining tokens: `on_message`
   * keeps the words of the name and collapses the whitespace between them.
   */
  lemma StartArguments(fromSelf: bool, message: string)
    requires ParseCommand(fromSelf, message).Start?
    ensures IsWord(ParseCommand(fromSelf, message).address)
    ensures Split(ParseCommand(fromSelf, message).name) == Tokens(message)[2..]
  {
    SplitJoin(Tokens(message)[2..]);
  }
}
