/**
 * The program's fixed run: three adapters read in turn, then a chat with two
 * subscribers, a broadcast, one unsubscribe and a second broadcast.
 */
module Demo {
  import opened Adapter
  import opened Users
  import opened SubscriberList
  import opened ChatHub

  const Greeting: string := "Привіт усім у чаті!"
  const PrivateNote: string := "Тільки Олена побачить це повідомлення."

  /** The three content lines, in the order TXT, JSON, XML; none fails. */
  method ReadAllFormats() returns (lines: seq<Result<string>>)
    ensures lines == [Ok(ReadTxt()), Ok(ReadJson()), Ok(ReadXml())]
  {
    var txt := TextFormatAdapter(TxtFile);
    var json := TextFormatAdapter(JsonFile);
    var xml := TextFormatAdapter(XmlFile);
    lines := [txt.GetContent(), json.GetContent(), xml.GetContent()];
  }

  /** Both users get the greeting, Olena first; after Ivan leaves only Olena
      gets the second message, and she is the only subscriber left. */
  method ChatScenario() returns (olena: User, ivan: User, transcript: seq<Event>, remaining: seq<User>)
    ensures olena != ivan && olena.name == "Олена" && ivan.name == "Іван"
    ensures transcript == [Announced(Greeting), Received(olena, Greeting), Received(ivan, Greeting),
                           Announced(PrivateNote), Received(olena, PrivateNote)]
    ensures remaining == [olena]
  {
    var console := new Console();
    var chat := new Chat();
    olena := new User("Олена");
    ivan := new User("Іван");

    chat.Subscribe(olena);
    chat.Subscribe(ivan);
    assert chat.subscribers == [olena, ivan];
    chat.SendMessage(Greeting, console);

    assert WithoutSubscriber([olena, ivan], ivan) == [olena] + WithoutSubscriber([ivan], ivan);
    chat.Unsubscribe(ivan);
    assert chat.subscribers == [olena];
    chat.SendMessage(PrivateNote, console);

    ScenarioTranscript(olena, ivan);
    transcript := console.output;
    remaining := chat.subscribers;
  }

  /** The two broadcasts of the run, to [Olena, Ivan] and then to [Olena],
      write the announcement and receipts in this order. */
  lemma ScenarioTranscript(olena: User, ivan: User)
    ensures Broadcast([olena, ivan], Greeting) + Broadcast([olena], PrivateNote)
         == [Announced(Greeting), Received(olena, Greeting), Received(ivan, Greeting),
             Announced(PrivateNote), Received(olena, PrivateNote)]
  {
    assert Deliveries([olena, ivan], Greeting) == [Received(olena, Greeting)] + Deliveries([ivan], Greeting);
    assert Deliveries([ivan], Greeting) == [Received(ivan, Greeting)];
    assert Deliveries([olena], PrivateNote) == [Received(olena, PrivateNote)];
  }
}
