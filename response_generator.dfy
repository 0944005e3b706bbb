/** ResponseGenerator.cs: the cybersecurity keyword test, the topic dispatch
    that tests topics in a fixed priority order, and the help text.

    The wording of the canned topic replies is not modelled: each reply is a
    named constant whose text is left open, and only which replies a topic
    offers, and how many, is fixed. */
module Responses {
  import opened Wrappers
  import opened Text

  /** The keywords of IsCybersecurityQuestion, in the order listed. */
  const Keywords: seq<string> := [
    "phishing", "malware", "password", "mfa", "antivirus", "brute-force",
    "encryption", "firewall", "vpn", "cybersecurity", "trojan", "worm",
    "ransomware", "spyware", "privacy", "social engineering", "backup", "scam"]

  /** IsCybersecurityQuestion(input): some keyword occurs in the lower-cased
      input. */
  function IsCybersecurityQuestion(input: string): (b: bool)
    ensures b <==> exists i :: 0 <= i < |Keywords| && Contains(ToLower(input), Keywords[i])
  {
    AnyContained(ToLower(input), Keywords)
  }

  /** The topics GetCybersecurityResponse has a branch for. */
  datatype Topic =
    | Phishing | Malware | Password | Mfa | Antivirus | Encryption | Firewall | Vpn
    | Trojan | Worm | Ransomware | Spyware | Privacy | SocialEngineering | Backup
    | Scam | Cybersecurity

  /** The order in which GetCybersecurityResponse tests the topics. */
  const Topics: seq<Topic> := [
    Phishing, Malware, Password, Mfa, Antivirus, Encryption, Firewall, Vpn,
    Trojan, Worm, Ransomware, Spyware, Privacy, SocialEngineering, Backup,
    Scam, Cybersecurity]

  /** The phrases whose presence selects a topic's branch. */
  function Phrases(t: Topic): (r: seq<string>)
    ensures |r| >= 1
  {
    match t
    case Phishing => ["phishing"]
    case Malware => ["malware"]
    case Password => ["password"]
    case Mfa => ["mfa", "multi-factor authentication"]
    case Antivirus => ["antivirus"]
    case Encryption => ["encryption"]
    case Firewall => ["firewall"]
    case Vpn => ["vpn"]
    case Trojan => ["trojan"]
    case Worm => ["worm"]
    case Ransomware => ["ransomware"]
    case Spyware => ["spyware"]
    case Privacy => ["privacy"]
    case SocialEngineering => ["social engineering"]
    case Backup => ["backup"]
    case Scam => ["scam"]
    case Cybersecurity => ["cybersecurity"]
  }

  /** The lower-cased text `s` mentions topic `t`. */
  predicate Mentions(s: string, t: Topic)
  {
    AnyContained(s, Phrases(t))
  }

  /** The phrase groups of the topics, in test order. */
  function TopicPhrases(): (r: seq<seq<string>>)
    ensures |r| == |Topics|
    ensures forall i :: 0 <= i < |Topics| ==> r[i] == Phrases(Topics[i])
  {
    seq(|Topics|, i requires 0 <= i < |Topics| => Phrases(Topics[i]))
  }

  /** The branch GetCybersecurityResponse takes: the first topic the
      lower-cased input mentions, or None for the final else. */
  function TopicOf(input: string): (t: Option<Topic>)
    ensures t.Some? ==> Mentions(ToLower(input), t.value)
  {
    var k := FirstContaining(ToLower(input), TopicPhrases());
    if k < |Topics| then Some(Topics[k]) else None
  }

  /** The position of a topic in the test order. */
  function Rank(t: Topic): (k: nat)
    ensures k < |Topics| && Topics[k] == t
  {
    match t
    case Phishing => 0 case Malware => 1 case Password => 2 case Mfa => 3
    case Antivirus => 4 case Encryption => 5 case Firewall => 6 case Vpn => 7
    case Trojan => 8 case Worm => 9 case Ransomware => 10 case Spyware => 11
    case Privacy => 12 case SocialEngineering => 13 case Backup => 14
    case Scam => 15 case Cybersecurity => 16
  }

  /** Each topic is tested once: position k holds the topic of rank k. */
  lemma RankOfTopic(k: nat)
    requires k < |Topics|
    ensures Rank(Topics[k]) == k
  {
  }

  /** Topic i is chosen exactly when the input mentions it and no topic
      tested before it. */
  lemma TopicOfIsFirst(input: string, i: nat)
    requires i < |Topics|
    ensures TopicOf(input) == Some(Topics[i]) <==>
      Mentions(ToLower(input), Topics[i])
      && forall j :: 0 <= j < i ==> !Mentions(ToLower(input), Topics[j])
  {
    var s, groups := ToLower(input), TopicPhrases();
    FirstContainingIs(s, groups, i);
    var k := FirstContaining(s, groups);
    if k < |Topics| && Topics[k] == Topics[i] {
      RankOfTopic(k);
      RankOfTopic(i);
    }
  }

  /** The final else is taken exactly when no topic is mentioned. */
  lemma TopicOfNone(input: string)
    ensures TopicOf(input) == None <==>
      forall j :: 0 <= j < |Topics| ==> !Mentions(ToLower(input), Topics[j])
  {
  }

  /** Three replies per topic, one per variant. */
  type Variants = s: seq<string> | |s| == 3 witness ["", "", ""]

  const PhishingReplies: Variants
  const MalwareReplies: Variants
  const PasswordReplies: Variants
  const MfaReplies: Variants
  const AntivirusReplies: Variants
  const EncryptionReplies: Variants
  const FirewallReplies: Variants
  const VpnReplies: Variants
  const PrivacyReplies: Variants
  const SocialEngineeringReplies: Variants
  const BackupReplies: Variants
  const ScamReplies: Variants
  const CybersecurityReplies: Variants
  const TrojanReply: string
  const WormReply: string
  const RansomwareReply: string
  const SpywareReply: string
  /** The "That's an interesting cybersecurity topic!" reply of the final else. */
  const GeneralReply: string

  /** The replies a branch chooses from. */
  function RepliesFor(t: Option<Topic>): (r: seq<string>)
    ensures |r| == 1 || |r| == 3
    ensures |r| == 1 <==> t.None? || t.value in {Trojan, Worm, Ransomware, Spyware}
  {
    match t
    case None => [GeneralReply]
    case Some(Phishing) => PhishingReplies
    case Some(Malware) => MalwareReplies
    case Some(Password) => PasswordReplies
    case Some(Mfa) => MfaReplies
    case Some(Antivirus) => AntivirusReplies
    case Some(Encryption) => EncryptionReplies
    case Some(Firewall) => FirewallReplies
    case Some(Vpn) => VpnReplies
    case Some(Trojan) => [TrojanReply]
    case Some(Worm) => [WormReply]
    case Some(Ransomware) => [RansomwareReply]
    case Some(Spyware) => [SpywareReply]
    case Some(Privacy) => PrivacyReplies
    case Some(SocialEngineering) => SocialEngineeringReplies
    case Some(Backup) => BackupReplies
    case Some(Scam) => ScamReplies
    case Some(Cybersecurity) => CybersecurityReplies
  }

  /** GetCybersecurityResponse(input); `pick` stands for the value drawn by
      `rand.Next(responses.Length)`, reduced modulo the number of replies. */
  function GetCybersecurityResponse(input: string, pick: nat): (r: string)
    ensures r in RepliesFor(TopicOf(input))
  {
    var replies := RepliesFor(TopicOf(input));
    replies[pick % |replies|]
  }

  /** The reply does not depend on the case of the input. */
  lemma ResponseIgnoresCase(input: string, pick: nat)
    ensures GetCybersecurityResponse(ToLower(input), pick) == GetCybersecurityResponse(input, pick)
    ensures GetCybersecurityResponse(ToUpper(input), pick) == GetCybersecurityResponse(input, pick)
  {
    ToLowerIdempotent(input);
    ToLowerOfToUpper(input);
  }

  /** An input that mentions malware but not phishing gets a malware reply,
      whatever later topics (passwords among them) it also mentions. */
  lemma MalwareBeforePassword(input: string)
    requires Contains(ToLower(input), "malware")
    requires !Contains(ToLower(input), "phishing")
    ensures TopicOf(input) == Some(Malware)
  {
    TopicOfIsFirst(input, 1);
  }

  /** "malware password" gets a malware reply. */
  lemma MalwarePassword()
    ensures TopicOf("malware password") == Some(Malware)
  {
    var s := "malware password";
    ToLowerNoCapitals(s);
    NotContainsMissingChar(s, "phishing", 'h');
    ContainsAt(s, "malware", 0);
    MalwareBeforePassword(s);
  }

  /** An input that mentions no topic takes the final else and gets the
      general reply. */
  lemma NoTopicIsGeneral(input: string, pick: nat)
    requires forall t: Topic :: !Mentions(ToLower(input), t)
    ensures TopicOf(input) == None
    ensures GetCybersecurityResponse(input, pick) == GeneralReply
  {
    TopicOfNone(input);
  }

  /** "brute-force" mentions none of the first eight topics: each of their
      phrases has a letter that "brute-force" lacks. */
  lemma BruteForceMissesEarlyTopics(t: Topic)
    requires Rank(t) < 8
    ensures !Mentions("brute-force", t)
  {
    var s := "brute-force";
    match t
    case Phishing => NotContainsMissingChar(s, "phishing", 'p');
    case Malware => NotContainsMissingChar(s, "malware", 'm');
    case Password => NotContainsMissingChar(s, "password", 'p');
    case Mfa =>
      NotContainsMissingChar(s, "mfa", 'm');
      NotContainsMissingChar(s, "multi-factor authentication", 'm');
    case Antivirus => NotContainsMissingChar(s, "antivirus", 'n');
    case Encryption => NotContainsMissingChar(s, "encryption", 'n');
    case Firewall => NotContainsMissingChar(s, "firewall", 'w');
    case Vpn => NotContainsMissingChar(s, "vpn", 'v');
    case _ => assert false;
  }

  /** "brute-force" mentions none of the last nine topics either. */
  lemma BruteForceMissesLateTopics(t: Topic)
    requires Rank(t) >= 8
    ensures !Mentions("brute-force", t)
  {
    var s := "brute-force";
    match t
    case Trojan => NotContainsMissingChar(s, "trojan", 'j');
    case Worm => NotContainsMissingChar(s, "worm", 'w');
    case Ransomware => NotContainsMissingChar(s, "ransomware", 's');
    case Spyware => NotContainsMissingChar(s, "spyware", 's');
    case Privacy => NotContainsMissingChar(s, "privacy", 'v');
    case SocialEngineering => NotContainsMissingChar(s, "social engineering", 's');
    case Backup => NotContainsMissingChar(s, "backup", 'k');
    case Scam => NotContainsMissingChar(s, "scam", 's');
    case Cybersecurity => NotContainsMissingChar(s, "cybersecurity", 's');
    case _ => assert false;
  }

  /** "brute-force" is a keyword but has no branch: it passes the keyword
      test and gets the general reply. */
  lemma BruteForceIsGeneral(pick: nat)
    ensures IsCybersecurityQuestion("brute-force")
    ensures TopicOf("brute-force") == None
    ensures GetCybersecurityResponse("brute-force", pick) == GeneralReply
  {
    var s := "brute-force";
    ToLowerNoCapitals(s);
    ContainsAt(s, Keywords[5], 0);
    forall t: Topic ensures !Mentions(s, t) {
      if Rank(t) < 8 {
        BruteForceMissesEarlyTopics(t);
      } else {
        BruteForceMissesLateTopics(t);
      }
    }
    NoTopicIsGeneral(s, pick);
  }

  /** An input that contains "multi-factor authentication" and none of the
      phrases tested before it gets an MFA reply. */
  lemma MfaPhraseSelectsMfa(input: string)
    requires Contains(ToLower(input), "multi-factor authentication")
    requires !Contains(ToLower(input), "phishing")
    requires !Contains(ToLower(input), "malware")
    requires !Contains(ToLower(input), "password")
    ensures TopicOf(input) == Some(Mfa)
  {
    assert Contains(ToLower(input), Phrases(Mfa)[1]);
    TopicOfIsFirst(input, 3);
  }

  /** "multi-factor authentication" is not one of the keywords. */
  lemma MfaPhraseIsNoKeyword()
    ensures "multi-factor authentication" !in Keywords
  {
  }

  /** "multi-factor authentication" has no capitals. */
  lemma MfaPhraseIsLower()
    ensures ToLower("multi-factor authentication") == "multi-factor authentication"
  {
    ToLowerNoCapitals("multi-factor authentication");
  }

  /** "multi-factor authentication" does not mention phishing. */
  lemma MfaPhraseLacksPhishing()
    ensures !Contains("multi-factor authentication", "phishing")
  {
    NotContainsMissingChar("multi-factor authentication", "phishing", 'p');
  }

  /** "multi-factor authentication" does not mention malware. */
  lemma MfaPhraseLacksMalware()
    ensures !Contains("multi-factor authentication", "malware")
  {
    NotContainsMissingChar("multi-factor authentication", "malware", 'w');
  }

  /** "multi-factor authentication" does not mention passwords. */
  lemma MfaPhraseLacksPassword()
    ensures !Contains("multi-factor authentication", "password")
  {
    NotContainsMissingChar("multi-factor authentication", "password", 'p');
  }

  /** "multi-factor authentication" selects the MFA branch although the phrase
      is not a keyword. */
  lemma MfaPhrase()
    ensures TopicOf("multi-factor authentication") == Some(Mfa)
  {
    var s := "multi-factor authentication";
    MfaPhraseIsLower();
    MfaPhraseLacksPhishing();
    MfaPhraseLacksMalware();
    MfaPhraseLacksPassword();
    ContainsAt(s, s, 0);
    MfaPhraseSelectsMfa(s);
  }

  /** The position in Keywords of a topic's first phrase. */
  function KeywordOf(t: Topic): (k: nat)
    ensures k < |Keywords| && Keywords[k] == Phrases(t)[0]
  {
    match t
    case Phishing => 0 case Malware => 1 case Password => 2 case Mfa => 3
    case Antivirus => 4 case Encryption => 6 case Firewall => 7 case Vpn => 8
    case Cybersecurity => 9 case Trojan => 10 case Worm => 11
    case Ransomware => 12 case Spyware => 13 case Privacy => 14
    case SocialEngineering => 15 case Backup => 16 case Scam => 17
  }

  /** Every branch phrase other than "multi-factor authentication" is a
      keyword, so an input that reaches a topic without that phrase passes
      the keyword test. */
  lemma TopicNeedsKeyword(input: string)
    requires TopicOf(input).Some?
    requires !Contains(ToLower(input), "multi-factor authentication")
    ensures IsCybersecurityQuestion(input)
  {
    var s := ToLower(input);
    var t := TopicOf(input).value;
    var i :| 0 <= i < |Phrases(t)| && Contains(s, Phrases(t)[i]);
    if i == 0 {
      assert Contains(s, Keywords[KeywordOf(t)]);
    } else {
      OnlyMfaHasTwoPhrases(t, i);
      assert false;
    }
  }

  /** "multi-factor authentication" is the only phrase that is not first. */
  lemma OnlyMfaHasTwoPhrases(t: Topic, i: nat)
    requires 0 < i < |Phrases(t)|
    ensures t == Mfa && i == 1 && Phrases(t)[i] == "multi-factor authentication"
  {
  }

  /** GetHelpMessage(): the same text on every call. */
  const HelpMessage: string :=
    "I can help with the following:\n" +
    " • Ask about cybersecurity topics (e.g., 'What is phishing?', 'Tell me about passwords', 'What is a scam?')\n" +
    " • Manage your cybersecurity tasks ('add task', 'view tasks', 'complete task 1')\n" +
    " • Take a cybersecurity quiz ('start quiz')\n" +
    " • View your activity log ('show activity log')\n" +
    " • Type 'hello' for a general greeting.\n" +
    " • Type 'exit' to quit."
}
