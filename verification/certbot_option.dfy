/**
  How an option key becomes a certbot command-line flag: the token
  (`getCommandOption`) and the prefix (`getCommandPrefix`). Ten keys have a
  one-letter short form; every other key is spelled out by `hyphenate`, a
  string helper this model takes as a parameter.
 */
module CertbotOption {

  // ------ The keys this model refers to

  const AUTHENTICATOR: string := "authenticator"
  const CONFIG: string := "config"
  const DOMAINS: string := "domains"
  const EMAIL: string := "email"
  const HELP: string := "help"
  const INSTALLER: string := "installer"
  const NON_INTERACTIVE: string := "nonInteractive"
  const QUIET: string := "quiet"
  const VERBOSE: string := "verbose"
  const WEBROOT_PATH: string := "webrootPath"

  const AGREE_TOS: string := "agreeTos"
  const CERT_NAME: string := "certName"
  const DELETE_AFTER_REVOKE: string := "deleteAfterRevoke"
  const NO_DELETE_AFTER_REVOKE: string := "noDeleteAfterRevoke"
  const RSA_KEY_SIZE: string := "rsaKeySize"

  const HYPHEN: string := "-"
  const DOUBLE_HYPHEN: string := "--"

  /** The keys that have a one-letter form, with their letter. */
  const SHORT_FLAGS: map<string, char> := map[
    AUTHENTICATOR := 'a', CONFIG := 'c', DOMAINS := 'd', EMAIL := 'm', HELP := 'h',
    INSTALLER := 'i', NON_INTERACTIVE := 'n', QUIET := 'q', VERBOSE := 'v', WEBROOT_PATH := 'w']

  /** `CertbotOption::getCommandOption($option)`. */
  function CommandOption(option: string, hyphenate: string -> string): (token: string)
    ensures option in SHORT_FLAGS ==> token == [SHORT_FLAGS[option]]
    ensures option !in SHORT_FLAGS ==> token == hyphenate(option)
  {
    match option
    case "authenticator" => "a"
    case "config" => "c"
    case "domains" => "d"
    case "email" => "m"
    case "help" => "h"
    case "installer" => "i"
    case "nonInteractive" => "n"
    case "quiet" => "q"
    case "verbose" => "v"
    case "webrootPath" => "w"
    case _ => hyphenate(option)
  }

  /** `CertbotOption::getCommandPrefix($option)`. */
  function CommandPrefix(option: string): (prefix: string)
    ensures prefix == HYPHEN <==> option in SHORT_FLAGS
    ensures prefix == DOUBLE_HYPHEN <==> option !in SHORT_FLAGS
  {
    match option
    case "authenticator" => HYPHEN
    case "config" => HYPHEN
    case "domains" => HYPHEN
    case "email" => HYPHEN
    case "help" => HYPHEN
    case "installer" => HYPHEN
    case "nonInteractive" => HYPHEN
    case "quiet" => HYPHEN
    case "verbose" => HYPHEN
    case "webrootPath" => HYPHEN
    case _ => DOUBLE_HYPHEN
  }

  /** The flag an option key is written as: its prefix, then its token. */
  function Flag(option: string, hyphenate: string -> string): string {
    CommandPrefix(option) + CommandOption(option, hyphenate)
  }

  /**
    The two tables agree: a single hyphen is used exactly for the keys whose
    token is a letter of the short table, so a single-hyphen flag always
    carries a one-letter token, whatever `hyphenate` does.
   */
  lemma PrefixMatchesToken(option: string, hyphenate: string -> string)
    ensures CommandPrefix(option) == HYPHEN ==> |CommandOption(option, hyphenate)| == 1
    ensures CommandPrefix(option) == HYPHEN <==>
      option in SHORT_FLAGS && CommandOption(option, hyphenate) == [SHORT_FLAGS[option]]
    ensures CommandPrefix(option) == DOUBLE_HYPHEN ==> CommandOption(option, hyphenate) == hyphenate(option)
  {
  }

  /** No two short keys share a letter, so a short flag names its key. */
  lemma ShortLettersDistinct(a: string, b: string)
    requires a in SHORT_FLAGS && b in SHORT_FLAGS && a != b
    ensures SHORT_FLAGS[a] != SHORT_FLAGS[b]
  {
  }

  /**
    The long flags of the documented `certbot certonly` example,
    `--rsa-key-size`, `--agree-tos` and `--webroot`, given that `hyphenate`
    spells the camel-case keys out.
   */
  lemma ExampleLongFlags(hyphenate: string -> string)
    requires hyphenate(RSA_KEY_SIZE) == "rsa-key-size" && hyphenate(AGREE_TOS) == "agree-tos"
    requires hyphenate("webroot") == "webroot"
    ensures Flag(RSA_KEY_SIZE, hyphenate) == "--rsa-key-size" && Flag(AGREE_TOS, hyphenate) == "--agree-tos"
    ensures Flag("webroot", hyphenate) == "--webroot"
  {
  }

  /**
    The short flags of the same example, `-w` and `-d`, whatever `hyphenate`
    does; `email` and `quiet` are written `-m` and `-q`, not the `--email`
    and `--quiet` the example shows.
   */
  lemma ExampleShortFlags(hyphenate: string -> string)
    ensures Flag(WEBROOT_PATH, hyphenate) == "-w" && Flag(DOMAINS, hyphenate) == "-d"
    ensures Flag(EMAIL, hyphenate) == "-m" && Flag(QUIET, hyphenate) == "-q"
  {
  }
}
