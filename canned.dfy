/** The canned-response table of `ChatbotCore.__init__` and the first-match
    rule `get_response` applies to it before any semantic search. */
module Canned {
  import opened Wrappers
  import opened Text

  /** One entry of `predefined_responses`: a trigger phrase and its reply. */
  datatype Trigger = Trigger(phrase: string, response: string)

  const HiResponse := "Hello there! How can I assist you with cloud services today?"
  const HelloResponse := "Hi! What can I help you with regarding cloud services?"
  const HeyResponse := "Hey! Ask me anything about cloud services."
  const HowAreYouResponse := "I'm a bot, so I don't have feelings, but I'm ready to help you with cloud services questions!"
  const ThankYouResponse := "You're welcome! Happy to help."
  const ThanksResponse := "No problem! Let me know if you have more questions."
  const ByeResponse := "Goodbye! Have a great day."
  const GoodbyeResponse := "Farewell! Feel free to return if you have more questions."

  /** The table in the dictionary's insertion order, which is the order
      Python iterates it in. */
  const PredefinedResponses: seq<Trigger> := [
    Trigger("hi", HiResponse),
    Trigger("hello", HelloResponse),
    Trigger("hey", HeyResponse),
    Trigger("how are you", HowAreYouResponse),
    Trigger("thank you", ThankYouResponse),
    Trigger("thanks", ThanksResponse),
    Trigger("bye", ByeResponse),
    Trigger("goodbye", GoodbyeResponse)
  ]

  /** Position of the first trigger, in table order, whose phrase occurs in
      `query`; `|table|` when none does. */
  function FirstMatch(table: seq<Trigger>, query: string): (k: nat)
    ensures k <= |table|
    ensures k < |table| ==> Contains(query, table[k].phrase)
    ensures forall j :: 0 <= j < k ==> !Contains(query, table[j].phrase)
  {
    if table == [] then 0
    else if Contains(query, table[0].phrase) then 0
    else 1 + FirstMatch(table[1..], query)
  }

  /** The reply of the first matching trigger, if any. */
  function CannedResponse(table: seq<Trigger>, query: string): (r: Option<string>)
    ensures r.None? <==> forall j :: 0 <= j < |table| ==> !Contains(query, table[j].phrase)
    ensures r.Some? ==> exists k :: 0 <= k < |table| && Contains(query, table[k].phrase) && r.value == table[k].response
  {
    var k := FirstMatch(table, query);
    if k < |table| then Some(table[k].response) else None
  }

  /** The first-match rule, stated against the positional definition of a
      substring: trigger `i` answers exactly when its phrase occurs in the
      query and no earlier phrase does. */
  lemma CannedResponseIsFirstOccurrence(table: seq<Trigger>, query: string, i: nat)
    requires i < |table|
    ensures FirstMatch(table, query) == i <==>
              IsSubstring(table[i].phrase, query) &&
              forall j :: 0 <= j < i ==> !IsSubstring(table[j].phrase, query)
  {
    ContainsIff(query, table[i].phrase);
    forall j | 0 <= j < i ensures Contains(query, table[j].phrase) <==> IsSubstring(table[j].phrase, query) {
      ContainsIff(query, table[j].phrase);
    }
  }

  /** No reply is given exactly when no phrase of the table occurs in the query. */
  lemma NoCannedResponseIff(table: seq<Trigger>, query: string)
    ensures CannedResponse(table, query).None? <==>
              forall j :: 0 <= j < |table| ==> !IsSubstring(table[j].phrase, query)
  {
    forall j | 0 <= j < |table| ensures Contains(query, table[j].phrase) <==> IsSubstring(table[j].phrase, query) {
      ContainsIff(query, table[j].phrase);
    }
  }

  /** "bye" comes before "goodbye" and occurs inside it, so the "goodbye"
      entry can never be the one that answers. */
  lemma GoodbyeIsShadowed(query: string)
    ensures FirstMatch(PredefinedResponses, query) != 7
    ensures CannedResponse(PredefinedResponses, query) != Some(GoodbyeResponse)
  {
    assert PredefinedResponses[6].phrase == "bye";
    assert PredefinedResponses[7].phrase == "goodbye";
    if Contains(query, "goodbye") {
      assert Contains("goodbye", "bye") by {
        assert OccursAt("bye", "goodbye", 4);
        ContainsIff("goodbye", "bye");
      }
      ContainsTransitive(query, "goodbye", "bye");
    }
  }

  /** "hi" is tried first, so any query in which it occurs, even inside a
      longer word such as "this", gets the "hi" reply. */
  lemma HiWinsInsideWords()
    ensures CannedResponse(PredefinedResponses, Normalize("This is a test!")) == Some(HiResponse)
  {
    NormalizeSentence("This is a test!", "this is a test");
    HiOccursIn("this is a test");
  }

  lemma HiOccursIn(n: string)
    requires n == "this is a test"
    ensures CannedResponse(PredefinedResponses, n) == Some(HiResponse)
  {
    assert OccursAt("hi", n, 1);
    ContainsIff(n, "hi");
  }

  /** "hello" is not preceded by any phrase that occurs in it, so a greeting
      with surrounding words gets the "hello" reply, not the "hi" one. */
  lemma HelloThereGetsHelloReply()
    ensures CannedResponse(PredefinedResponses, Normalize("Hello there!")) == Some(HelloResponse)
  {
    NormalizeSentence("Hello there!", "hello there");
    HelloOccursIn("hello there");
  }

  lemma HelloOccursIn(n: string)
    requires n == "hello there"
    ensures CannedResponse(PredefinedResponses, n) == Some(HelloResponse)
  {
    assert PredefinedResponses[0].phrase == "hi" && PredefinedResponses[1].phrase == "hello";
    forall k | 0 <= k <= |n| - 2 ensures !OccursAt("hi", n, k) {
      assert n[k..k + 2][0] == n[k] && n[k..k + 2][1] == n[k + 1];
      assert n[k] != 'h' || n[k + 1] != 'i';
    }
    ContainsIff(n, "hi");
    assert OccursAt("hello", n, 0);
    ContainsIff(n, "hello");
  }
}
