/** The words that the statements of the webhook scripts start with. */
module WebhookWords {
  import opened SqlText
  import opened SqlWords
  import opened SqlForms
  import opened Wrappers

  lemma Pairs()
    ensures "CREATE" + (" " + "SCHEMA") == "CREATE SCHEMA" && "CREATE" + (" " + "EXTENSION") == "CREATE EXTENSION"
    ensures "CREATE" + (" " + "OR") == "CREATE OR" && "CREATE" + (" " + "TRIGGER") == "CREATE TRIGGER"
    ensures "DROP" + (" " + "TRIGGER") == "DROP TRIGGER" && "DROP" + (" " + "FUNCTION") == "DROP FUNCTION"
  {}

  lemma SchemaText()
    ensures "CREATE SCHEMA" + " IF NOT EXISTS supadupa;\n" == "CREATE SCHEMA IF NOT EXISTS supadupa;\n"
  {}

  lemma ExtensionText()
    ensures "CREATE EXTENSION" + " IF NOT EXISTS pg_net;\n" == "CREATE EXTENSION IF NOT EXISTS pg_net;\n"
  {}

  lemma ReplaceText()
    ensures "CREATE OR" + " REPLACE FUNCTION supadupa." == "CREATE OR REPLACE FUNCTION supadupa."
  {}

  lemma TriggerTexts()
    ensures "CREATE TRIGGER" + " " == "CREATE TRIGGER "
    ensures "DROP TRIGGER" + " IF EXISTS " == "DROP TRIGGER IF EXISTS "
    ensures "DROP FUNCTION" + " IF EXISTS supadupa." == "DROP FUNCTION IF EXISTS supadupa."
  {}

  lemma HeadWordsPlain()
    ensures AllWord("CREATE") && AllWord("DROP") && AllWord("SCHEMA") && AllWord("EXTENSION") && AllWord("OR")
    ensures AllWord("TRIGGER") && AllWord("FUNCTION") && AllWord("DO") && AllWord("AFTER")
  {}

  lemma RestsPlain()
    ensures Plain(" IF NOT EXISTS supadupa;\n") && Plain(" IF NOT EXISTS pg_net;\n")
  {}

  lemma MoreRestsPlain()
    ensures Plain(" REPLACE FUNCTION supadupa.") && Plain(" ") && Plain(" IF EXISTS ") && Plain(" IF EXISTS supadupa.") && Plain(" ON ")
  {}

  lemma BlankHeads()
    ensures Ends(" IF NOT EXISTS supadupa;\n") && Ends(" IF NOT EXISTS pg_net;\n") && Ends(" REPLACE FUNCTION supadupa.")
    ensures Ends(" ") && Ends(" IF EXISTS ") && Ends(" IF EXISTS supadupa.") && Ends(" ON ")
  {}

  lemma Heads()
    ensures Phrase("CREATE SCHEMA IF NOT EXISTS supadupa;\n") == [Word("CREATE"), Word("SCHEMA")] + Phrase(" IF NOT EXISTS supadupa;\n")
    ensures Phrase("CREATE EXTENSION IF NOT EXISTS pg_net;\n") == [Word("CREATE"), Word("EXTENSION")] + Phrase(" IF NOT EXISTS pg_net;\n")
    ensures Phrase("CREATE OR REPLACE FUNCTION supadupa.") == [Word("CREATE"), Word("OR")] + Phrase(" REPLACE FUNCTION supadupa.")
    ensures Phrase("CREATE TRIGGER ") == [Word("CREATE"), Word("TRIGGER")] + Phrase(" ")
    ensures Phrase("DROP TRIGGER IF EXISTS ") == [Word("DROP"), Word("TRIGGER")] + Phrase(" IF EXISTS ")
    ensures Phrase("DROP FUNCTION IF EXISTS supadupa.") == [Word("DROP"), Word("FUNCTION")] + Phrase(" IF EXISTS supadupa.")
  {
    SchemaText();
    ExtensionText();
    ReplaceText();
    TriggerTexts();
    Pairs();
    HeadWordsPlain();
    RestsPlain();
    MoreRestsPlain();
    BlankHeads();
    hide *;
    PhraseHead("CREATE", "SCHEMA", " IF NOT EXISTS supadupa;\n");
    PhraseHead("CREATE", "EXTENSION", " IF NOT EXISTS pg_net;\n");
    PhraseHead("CREATE", "OR", " REPLACE FUNCTION supadupa.");
    PhraseHead("CREATE", "TRIGGER", " ");
    PhraseHead("DROP", "TRIGGER", " IF EXISTS ");
    PhraseHead("DROP", "FUNCTION", " IF EXISTS supadupa.");
  }

  /** An event is one word. */
  predicate EventWord(event: string) { event != "" && AllWord(event) }

  lemma AfterText(event: string)
    ensures "\nAFTER " + event + " ON " == ['\n'] + ("AFTER" + (" " + event) + " ON ")
  {}

  lemma AfterIs(event: string)
    requires EventWord(event)
    ensures Phrase("\nAFTER " + event + " ON ") == [Word("AFTER"), Word(event)] + Phrase(" ON ")
  {
    HeadWordsPlain();
    RestsPlain();
    MoreRestsPlain();
    BlankHeads();
    AfterText(event);
    hide Lex, AllWord, Plain, Ends;
    PhraseHead("AFTER", event, " ON ");
    BlankIs('\n', "AFTER" + (" " + event) + " ON ");
  }

  lemma BlankPhrase()
    ensures Phrase(" ") == []
  {
    NothingIs();
  }
}
