/** Program.cs, `Chatbot.GetResponse`: the console bot's reply to one query,
    chosen by the first phrase group the normalised query contains. */
module ConsoleBot {
  import opened Text

  /** The replies GetResponse can return, one per branch. */
  datatype Reply =
    | NotUnderstood | HowAreYou | Purpose | AskAbout | PasswordSafety
    | Phishing | SafeBrowsing | Malware | SocialEngineering | DataPrivacy
    | MobileSecurity | Ransomware | Fallback

  /** The branches of the if/else chain, in the order tested. */
  const Branches: seq<Reply> := [
    HowAreYou, Purpose, AskAbout, PasswordSafety, Phishing, SafeBrowsing,
    Malware, SocialEngineering, DataPrivacy, MobileSecurity, Ransomware]

  /** The phrases whose presence selects a branch; any one of them will do. */
  function Phrases(r: Reply): seq<string>
  {
    match r
    case HowAreYou => ["how are you"]
    case Purpose => ["what's your purpose", "what is your purpose"]
    case AskAbout => ["what can i ask you about"]
    case PasswordSafety => ["password safety", "strong password"]
    case Phishing => ["phishing"]
    case SafeBrowsing => ["safe browsing", "browse safely"]
    case Malware => ["malware"]
    case SocialEngineering => ["social engineering"]
    case DataPrivacy => ["data privacy"]
    case MobileSecurity => ["mobile security"]
    case Ransomware => ["ransomware"]
    case _ => []
  }

  /** The normalised query `q` contains one of the phrases of branch `r`. */
  predicate Asks(q: string, r: Reply)
  {
    AnyContained(q, Phrases(r))
  }

  /** The phrase groups of the branches, in test order. */
  function QueryGroups(): (g: seq<seq<string>>)
    ensures |g| == |Branches|
    ensures forall k :: 0 <= k < |Branches| ==> g[k] == Phrases(Branches[k])
  {
    seq(|Branches|, k requires 0 <= k < |Branches| => Phrases(Branches[k]))
  }

  /** The position of a branch in the chain. */
  function BranchRank(r: Reply): (k: nat)
    requires r != NotUnderstood && r != Fallback
    ensures k < |Branches| && Branches[k] == r
  {
    match r
    case HowAreYou => 0 case Purpose => 1 case AskAbout => 2
    case PasswordSafety => 3 case Phishing => 4 case SafeBrowsing => 5
    case Malware => 6 case SocialEngineering => 7 case DataPrivacy => 8
    case MobileSecurity => 9 case Ransomware => 10
  }

  /** Each branch appears once in the chain. */
  lemma BranchRankOf(k: nat)
    requires k < |Branches|
    ensures Branches[k] != NotUnderstood && Branches[k] != Fallback
    ensures BranchRank(Branches[k]) == k
  {
  }

  /** `query.ToLower().Trim()`. */
  function Normalise(query: string): string
  {
    Trim(ToLower(query))
  }

  /** A normalised query is blank only when it is empty. */
  lemma NormalisedBlank(query: string)
    ensures IsBlank(Normalise(query)) <==> Normalise(query) == []
  {
    var q := Normalise(query);
    if q != [] {
      assert !IsWhiteSpace(q[0]);
    }
  }

  /** The branch GetResponse takes for `query`. */
  function Classify(query: string): (r: Reply)
    ensures r == NotUnderstood <==> IsBlank(Normalise(query))
  {
    Branch(Normalise(query))
  }

  /** The branch for a query already normalised. */
  function Branch(q: string): (r: Reply)
    ensures r == NotUnderstood <==> IsBlank(q)
  {
    if IsBlank(q) then NotUnderstood
    else
      var k := FirstContaining(q, QueryGroups());
      if k < |Branches| then Branches[k] else Fallback
  }

  /** Branch k is taken exactly when the normalised query contains a phrase
      of group k and none of the groups tested before it. */
  lemma ClassifyIsFirst(query: string, k: nat)
    requires k < |Branches|
    ensures Classify(query) == Branches[k] <==>
      !IsBlank(Normalise(query))
      && Asks(Normalise(query), Branches[k])
      && forall j :: 0 <= j < k ==> !Asks(Normalise(query), Branches[j])
  {
    BranchIsFirst(Normalise(query), k);
  }

  lemma BranchIsFirst(q: string, k: nat)
    requires k < |Branches|
    ensures Branch(q) == Branches[k] <==>
      !IsBlank(q) && Asks(q, Branches[k]) && forall j :: 0 <= j < k ==> !Asks(q, Branches[j])
  {
    FirstContainingIs(q, QueryGroups(), k);
    BranchRankOf(k);
    if Branch(q) == Branches[k] {
      BranchRankOf(FirstContaining(q, QueryGroups()));
    }
  }

  /** The final else is taken exactly when the query is not blank and
      contains no phrase of any group. */
  lemma ClassifyFallback(query: string)
    ensures Classify(query) == Fallback <==>
      !IsBlank(Normalise(query))
      && forall j :: 0 <= j < |Branches| ==> !Asks(Normalise(query), Branches[j])
  {
    var q := Normalise(query);
    if !IsBlank(q) {
      var k := FirstContaining(q, QueryGroups());
      if k < |Branches| {
        BranchRankOf(k);
      }
    }
  }

  /** An empty or all-whitespace query gets the "didn't quite understand"
      reply. */
  lemma BlankQuery(query: string)
    requires IsBlank(query)
    ensures Classify(query) == NotUnderstood
  {
    assert IsBlank(ToLower(query)) by {
      forall i | 0 <= i < |query| ensures IsWhiteSpace(ToLower(query)[i]) {
        ToLowerCharWhite(query[i]);
      }
    }
  }

  /** The branch does not depend on the case of the query. */
  lemma ClassifyIgnoresCase(query: string)
    ensures Classify(ToLower(query)) == Classify(query)
    ensures Classify(ToUpper(query)) == Classify(query)
  {
    NormaliseIgnoresCase(query);
  }

  lemma NormaliseIgnoresCase(query: string)
    ensures Normalise(ToLower(query)) == Normalise(query)
    ensures Normalise(ToUpper(query)) == Normalise(query)
  {
    ToLowerIdempotent(query);
    ToLowerOfToUpper(query);
  }

  /** Whitespace around the query does not change the branch. */
  lemma ClassifyIgnoresPadding(w1: string, query: string, w2: string)
    requires IsBlank(w1) && IsBlank(w2)
    ensures Classify(w1 + query + w2) == Classify(query)
  {
    NormaliseIgnoresPadding(w1, query, w2);
  }

  lemma NormaliseIgnoresPadding(w1: string, query: string, w2: string)
    requires IsBlank(w1) && IsBlank(w2)
    ensures Normalise(w1 + query + w2) == Normalise(query)
  {
    ToLowerConcat(w1 + query, w2);
    ToLowerConcat(w1, query);
    forall i | 0 <= i < |w1| ensures IsWhiteSpace(ToLower(w1)[i]) {
      ToLowerCharWhite(w1[i]);
    }
    forall i | 0 <= i < |w2| ensures IsWhiteSpace(ToLower(w2)[i]) {
      ToLowerCharWhite(w2[i]);
    }
    TrimIgnoresPadding(ToLower(w1), ToLower(query), ToLower(w2));
  }

  /** The first branch the normalised query asks for is the first group the
      chain finds. */
  lemma FirstAsked(q: string, k: nat)
    requires k < |Branches| && Asks(q, Branches[k])
    requires forall j :: 0 <= j < k ==> !Asks(q, Branches[j])
    ensures FirstContaining(q, QueryGroups()) == k
  {
    FirstContainingIs(q, QueryGroups(), k);
  }

  /** A query that is not blank takes the branch of the first group found. */
  lemma ClassifyAt(query: string, k: nat)
    requires k < |Branches| && !IsBlank(Normalise(query))
    requires FirstContaining(Normalise(query), QueryGroups()) == k
    ensures Classify(query) == Branches[k]
  {
  }

  /** "strong password" is a password-safety phrase. */
  lemma StrongPasswordAsks(q: string)
    requires Contains(q, "strong password")
    ensures Asks(q, Branches[3]) && Branches[3] == PasswordSafety
  {
    assert Contains(q, Phrases(PasswordSafety)[1]);
  }

  /** A query that asks for strong passwords gets the password-safety reply
      even when it also mentions phishing, which is tested later. */
  lemma StrongPasswordBeforePhishing(query: string)
    requires Contains(Normalise(query), "strong password")
    requires forall j :: 0 <= j < 3 ==> !Asks(Normalise(query), Branches[j])
    ensures Classify(query) == PasswordSafety
  {
    var q := Normalise(query);
    StrongPasswordAsks(q);
    NormalisedBlank(query);
    NotContainsLonger([], "strong password");
    FirstAsked(q, 3);
    ClassifyAt(query, 3);
  }

  /** "password" on its own asks for no branch. */
  lemma PasswordAsksNothing(r: Reply)
    ensures !Asks("password", r)
  {
    var q := "password";
    if r == Phishing {
      NotContainsMissingChar(q, "phishing", 'h');
    } else if r == Malware {
      NotContainsMissingChar(q, "malware", 'm');
    } else {
      forall i | 0 <= i < |Phrases(r)| ensures !Contains(q, Phrases(r)[i]) {
        NotContainsLonger(q, Phrases(r)[i]);
      }
    }
  }

  /** "password" on its own falls through to the "could you rephrase" reply:
      the console bot only knows "password safety" and "strong password". */
  lemma PasswordAloneFallsBack()
    ensures Classify("password") == Fallback
  {
    var q := "password";
    ToLowerNoCapitals(q);
    assert !IsWhiteSpace(q[0]) && !IsWhiteSpace(q[|q| - 1]);
    assert Trim(q) == q;
    forall j | 0 <= j < |Branches| ensures !Asks(q, Branches[j]) {
      PasswordAsksNothing(Branches[j]);
    }
    ClassifyFallback(q);
  }

  /** GetResponse(query): the text of the branch the query selects. */
  function GetResponse(query: string): (r: string)
    ensures IsBlank(Normalise(query)) ==> r == ReplyText(NotUnderstood)
    ensures !IsBlank(Normalise(query))
      && (forall j :: 0 <= j < |Branches| ==> !Asks(Normalise(query), Branches[j]))
      ==> r == ReplyText(Fallback)
  {
    ClassifyFallback(query);
    ReplyText(Classify(query))
  }

  /** The reply to a query that asks about branch `k` before any earlier
      branch is the text of branch `k`. */
  lemma ResponseOfBranch(query: string, k: nat)
    requires k < |Branches| && !IsBlank(Normalise(query))
    requires Asks(Normalise(query), Branches[k])
    requires forall j :: 0 <= j < k ==> !Asks(Normalise(query), Branches[j])
    ensures GetResponse(query) == ReplyText(Branches[k])
  {
    ClassifyIsFirst(query, k);
  }

  /** The reply does not depend on the case of the query or on whitespace
      around it. */
  lemma ResponseIgnoresCaseAndPadding(w1: string, query: string, w2: string)
    requires IsBlank(w1) && IsBlank(w2)
    ensures GetResponse(ToUpper(query)) == GetResponse(query)
    ensures GetResponse(w1 + query + w2) == GetResponse(query)
  {
    ClassifyIgnoresCase(query);
    ClassifyIgnoresPadding(w1, query, w2);
  }

  /** The text of each reply. */
  function ReplyText(r: Reply): string
  {
    match r
    case NotUnderstood =>
      "I didn't quite understand that. Could you rephrase?"
    case HowAreYou =>
      "I'm doing well, thank you for asking!"
    case Purpose =>
      "My purpose is to provide you with information and raise awareness about cybersecurity topics."
    case AskAbout =>
      "You can ask me about topics like password safety, phishing, safe browsing, malware, social engineering, and general online security tips."
    case PasswordSafety =>
      "For strong password safety, use a combination of uppercase and lowercase letters, numbers, and symbols. Avoid using personal information and aim for a password that is at least 12 characters long. Consider using a password manager and enable multi-factor authentication (MFA)."
    case Phishing =>
      "Phishing is a type of online fraud where attackers try to trick you into revealing personal information, such as passwords or credit card details, often through deceptive emails or websites. Be cautious of unsolicited messages and always verify the sender's authenticity. Look for suspicious links and never provide sensitive info via email."
    case SafeBrowsing =>
      "To browse safely, keep your web browser and antivirus software up to date. Be wary of suspicious links and websites, and avoid downloading files from untrusted sources. Use HTTPS for secure connections when entering sensitive information. Avoid public Wi-Fi for sensitive tasks."
    case Malware =>
      "Malware is malicious software designed to damage or disrupt systems. Avoid downloading files from untrusted sources, use antivirus software, and be cautious of email attachments. Regularly update your software to patch vulnerabilities."
    case SocialEngineering =>
      "Social engineering is the manipulation of people to gain access to sensitive information. Be cautious of unsolicited requests for personal information, and verify the identity of anyone asking for such details. Never share passwords or sensitive data with unknown parties."
    case DataPrivacy =>
      "Data privacy is crucial. Be mindful of the information you share online, and understand the privacy policies of the services you use. Use strong passwords, enable MFA, and limit the amount of personal data you provide. Keep your software updated."
    case MobileSecurity =>
      "For mobile security, use a strong passcode or biometric authentication. Only download apps from official app stores. Keep your device's operating system updated and be cautious of public Wi-Fi. Review app permissions regularly."
    case Ransomware =>
      "Ransomware is a type of malware that encrypts your files and demands payment for their release. Regularly back up your data, avoid clicking on suspicious links or attachments, and keep your software updated to prevent ransomware attacks."
    case Fallback =>
      "I didn't quite understand that. Could you rephrase your question or ask about password safety, phishing, safe browsing, malware, social engineering, or data privacy?"
  }
}
