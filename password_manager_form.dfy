/** The form of main.py: the three entry widgets and the data.json file,
    with the Generate, Add and Search buttons' handlers. Each message box
    becomes an outcome the handler returns; the Ok/Cancel answer of the
    confirmation box is the `confirmed` argument of Save. */
module PasswordManagerForm {
  import opened TitleCase
  import opened CredentialStore
  import PasswordGenerator

  /** The email entry's initial text (main.py:176). */
  const DefaultEmail: string := "zbeeblebrox@email.com"

  /** What the Add button ends in: the "Oops" box about an empty field, a
      cancelled confirmation, or a save. */
  datatype SaveOutcome = MissingField | Declined | Saved

  /** What the Search button shows: "No Data File Found.", "<website>
      doesn't exist", or the email and password found under `website`. */
  datatype FindOutcome = NoDataFile | NotFound(website: string) | Found(website: string, entry: Record)

  class Form {
    var website: string           // web_entry
    var email: string             // email_entry
    var password: string          // password_entry
    var dataFile: Option<Store>   // data.json; None while the file does not exist

    /** The window as main.py:170-179 builds it, over whatever data.json
        holds at start-up. */
    constructor (file: Option<Store>)
      ensures website == [] && email == DefaultEmail && password == []
      ensures dataFile == file
    {
      website, email, password := [], DefaultEmail, [];
      dataFile := file;
    }

    /** The Generate Password button (main.py:15-85): the password entry is
        emptied and receives a freshly generated password. */
    method GeneratePassword()
      modifies this`password
      ensures PasswordGenerator.WellComposed(password)
      ensures 12 <= |password| <= 18
    {
      password := [];
      password := PasswordGenerator.GeneratePassword();
    }

    /** The Add button (main.py:91-123). */
    method Save(confirmed: bool) returns (outcome: SaveOutcome)
      modifies this
      ensures outcome == MissingField <==> Title(old(website)) == [] || old(password) == []
      ensures outcome == Declined <==> Title(old(website)) != [] && old(password) != [] && !confirmed
      ensures outcome != Saved ==>
        website == old(website) && email == old(email) && password == old(password) && dataFile == old(dataFile)
      ensures outcome == Saved ==>
        dataFile == Some(Upsert(old(dataFile), Title(old(website)), Record(old(email), old(password))))
      ensures outcome == Saved ==> website == [] && password == [] && email == old(email)
    {
      var key := Title(website);
      var newData := Record(email, password);
      if |key| == 0 || |password| == 0 {
        outcome := MissingField;
      } else if !confirmed {
        outcome := Declined;
      } else {
        if dataFile.None? {
          dataFile := Some(map[key := newData]);
        } else {
          var data := dataFile.value;
          data := data[key := newData];
          dataFile := Some(data);
        }
        website := [];
        password := [];
        outcome := Saved;
      }
    }

    /** The Search button (main.py:129-145). */
    method FindPassword() returns (outcome: FindOutcome)
      ensures dataFile.None? ==> outcome == NoDataFile
      ensures dataFile.Some? && Title(website) !in dataFile.value ==> outcome == NotFound(Title(website))
      ensures dataFile.Some? && Title(website) in dataFile.value ==>
        outcome == Found(Title(website), dataFile.value[Title(website)])
    {
      var key := Title(website);
      if dataFile.None? {
        outcome := NoDataFile;
      } else if key in dataFile.value {
        outcome := Found(key, dataFile.value[key]);
      } else {
        outcome := NotFound(key);
      }
    }
  }

  /** A user saves a credential, then types the website name again with its
      letters in any case and searches: the saved email and password come
      back. */
  method SaveThenFind(form: Form, query: string) returns (outcome: FindOutcome)
    requires form.website != [] && form.password != []
    requires SameIgnoringCase(query, form.website)
    modifies form
    ensures outcome == Found(Title(query), Record(old(form.email), old(form.password)))
  {
    var saved := form.Save(true);
    FindAfterSave(old(form.dataFile), old(form.website), query, Record(old(form.email), old(form.password)));
    form.website := query;
    outcome := form.FindPassword();
  }

  /** A user saves "Test" with password "A", then "Test" again with password
      "B": searching "Test" shows "B" only, whatever the store held before. */
  method OverwriteThenFind(form: Form) returns (outcome: FindOutcome)
    modifies form
    ensures outcome == Found("Test", Record(old(form.email), "B"))
  {
    form.website, form.password := "test", "A";
    var first := form.Save(true);
    form.website, form.password := "TEST", "B";
    var second := form.Save(true);
    form.website := "Test";
    outcome := form.FindPassword();
  }
}
