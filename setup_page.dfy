/** The setup form (src/pages/Setup.tsx): four fields, a check that the
    two required ones are filled in, and the write of the setup record that
    starts the interview. */
module SetupPage {
  import opened Ui
  import opened Text
  import opened Records
  import opened SessionStore

  const RequiredMessage := "Please fill in all required fields"
  const SavedMessage := "Interview setup saved"

  /** The option values of the experience selector. */
  const ExperienceLevels: seq<string> := ["entry-level", "mid-level", "senior", "leadership"]
  const DefaultExperience := "mid-level"

  /** The page's React state. */
  class Setup {
    const store: Store
    var jobTitle: string
    var company: string
    var experience: string
    var jobDescription: string

    ghost predicate Valid()
      reads this, store
    {
      store.Valid() && experience in ExperienceLevels
    }

    /** The state of the first render: empty fields and mid-level
        experience, one of the selector's options. */
    constructor (store: Store)
      requires store.Valid()
      ensures Valid() && this.store == store
      ensures jobTitle == "" && company == "" && jobDescription == ""
      ensures experience == DefaultExperience
    {
      this.store := store;
      jobTitle := "";
      company := "";
      experience := DefaultExperience;
      jobDescription := "";
    }

    /** The text inputs' change events. */
    method SetFields(title: string, companyName: string, description: string)
      requires Valid()
      modifies this
      ensures Valid()
      ensures jobTitle == title && company == companyName && jobDescription == description
      ensures experience == old(experience)
    {
      jobTitle, company, jobDescription := title, companyName, description;
    }

    /** The selector's change event; it offers only its four options. */
    method SetExperience(value: string)
      requires Valid() && value in ExperienceLevels
      modifies this
      ensures Valid()
      ensures experience == value
      ensures jobTitle == old(jobTitle) && company == old(company)
      ensures jobDescription == old(jobDescription)
    {
      experience := value;
    }

    /** A blank job title or company is refused with the store untouched.
        Otherwise the record is saved with every field exactly as entered,
        untrimmed, and stamped with `timestamp` (the clock's ISO text), and
        the MCQ round follows. */
    method HandleSubmit(timestamp: string) returns (out: Outcome)
      requires Valid()
      modifies store
      ensures Valid()
      ensures IsBlank(jobTitle) || IsBlank(company) ==>
                out == Show(ErrorToast(RequiredMessage)) && store.items == old(store.items)
      ensures !IsBlank(jobTitle) && !IsBlank(company) ==>
                var setup := InterviewSetup(jobTitle, company, experience, jobDescription, timestamp);
                && out == Go(SuccessToast(SavedMessage), McqRoute)
                && store.items == old(store.items)[SetupKey := Json(SetupDoc(setup))]
                && store.GetInterviewSetup() == Some(setup)
    {
      if IsBlank(jobTitle) || IsBlank(company) {
        return Show(ErrorToast(RequiredMessage));
      }
      store.SaveInterviewSetup(InterviewSetup(jobTitle, company, experience, jobDescription, timestamp));
      out := Go(SuccessToast(SavedMessage), McqRoute);
    }
  }
}
