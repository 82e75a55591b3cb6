/** Emoji shortcodes: the alias table of `MainWindowViewDispatcher.ShortCodeToEmoji` and the
    `SemanticEmoji` record built on it. The shortcode-to-Unicode converter is a foreign library
    and is passed in as `convert`. */
module Emoji {

  /** Project-specific shortcodes and the standard shortcode each one stands for. */
  const Aliases: map<string, string> := map[
    ":bug:" := ":pill:",
    ":bug1:" := ":pill:",
    ":bug2:" := ":syringe:",
    ":bug3:" := ":ambulance:",
    ":refactor:" := ":construction_site:",
    ":sync:" := ":cloud:"
  ]

  /** Converts a shortcode to its emoji, first rewriting the aliases to the standard shortcode. */
  function ShortCodeToEmoji(convert: string -> string, possibleEmoji: string): (r: string)
    ensures possibleEmoji in Aliases ==> r == convert(Aliases[possibleEmoji])
    ensures possibleEmoji !in Aliases ==> r == convert(possibleEmoji)
  {
    if possibleEmoji == ":bug:" then convert(":pill:")
    else if possibleEmoji == ":bug1:" then convert(":pill:")
    else if possibleEmoji == ":bug2:" then convert(":syringe:")
    else if possibleEmoji == ":bug3:" then convert(":ambulance:")
    else if possibleEmoji == ":refactor:" then convert(":construction_site:")
    else if possibleEmoji == ":sync:" then convert(":cloud:")
    else convert(possibleEmoji)
  }

  /** Aliases do not chain: an alias renders exactly like the shortcode it stands for. */
  lemma AliasRendersAsTarget(convert: string -> string, alias: string)
    requires alias in Aliases
    ensures ShortCodeToEmoji(convert, alias) == ShortCodeToEmoji(convert, Aliases[alias])
  {
    assert Aliases[alias] !in Aliases;
  }

  /** An emoji offered as a suggestion: its rendered form, shortcode and description. */
  datatype SemanticEmoji = SemanticEmoji(emoji: string, shortCode: string, description: string)

  /** The `SemanticEmoji(shortCode, description)` constructor. */
  function NewSemanticEmoji(convert: string -> string, shortCode: string, description: string): (e: SemanticEmoji)
    ensures e.shortCode == shortCode
    ensures e.description == description
    ensures shortCode in Aliases ==> e.emoji == convert(Aliases[shortCode])
    ensures shortCode !in Aliases ==> e.emoji == convert(shortCode)
  {
    SemanticEmoji(ShortCodeToEmoji(convert, shortCode), shortCode, description)
  }

  /** `DisplayString`: the emoji, one space, then the description. */
  function DisplayString(e: SemanticEmoji): (r: string)
    ensures |r| == |e.emoji| + 1 + |e.description|
    ensures r[..|e.emoji|] == e.emoji
    ensures r[|e.emoji|] == ' '
    ensures r[|e.emoji| + 1..] == e.description
  {
    e.emoji + " " + e.description
  }
}
