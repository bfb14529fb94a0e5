# Query-builder views: field-name autocomplete

This project models the two views of the data interrogator's query builder
(`data_interrogator/views/views.py`) in Dafny and proves what they promise.

- **The autocomplete endpoint** (`InterrogationAutoComplete.get`). The user
  types a partial field expression `q` against a report model. The view first
  drops an ignored prefix: everything up to the last space, else up to the
  first `(`, else up to the first `::`. It splits what is left on `.`. It walks
  the dotted path through the related models, keeps the fields of the model it
  reaches whose name contains the lower-cased last segment, and skips excluded
  fields and fields that point at excluded models. For each remaining field it
  answers with one record holding `value`, `lookup`, `name`, `is_relation`,
  `help` and `datatype`.
- **The table view's gate** (`InterrogationView.get`). The view only builds a
  bound form and interrogates when the request is a GET carrying at least one
  non-empty `columns` value.

The ORM's live model metadata is replaced by a schema of its own (module
`Meta`). A schema maps each model name to the model's `__doc__` (which the framework fills in when the class declares none), the text its
verbose name renders as, and its fields in metadata order. Each field records its
name, the model it relates to (if any), whether it is one of the model's own
columns, its help text and its internal type (if it reports one). The
interrogator's checks that live elsewhere are fields of the `Interrogator`
datatype: report-model validation, the field and model exclusion tests, and
field-name normalisation. The endpoint's answer is
`Result<seq<Suggestion>, Failure>`. `Ok([])` is the blank JSON response.
`Err(_)` is an exception that escapes the view, which the server turns into an
error page.

Modules: `Wrappers` (Option, Result), `PyStr` (the Python string operations
used), `Seqs` (filtering comprehensions), `Meta` (the schema), `Views` (the
views, as specification functions and as the step-by-step methods `Get`,
`WalkPath` and `BuildSuggestions`), and `AutoCompleteProperties` (the lemmas).

In the code only report-model validation sits inside the `try`. A path segment
that names no field, or a relation with no related model, raises past the view.
So the model returns `Err` for those cases, not `Ok([])`.

## Model

| member | source | states |
|---|---|---|
| `Views.HasValidColumns` | data_interrogator/views/views.py:40 | true exactly when some requested column is non-empty |
| `Views.TableView` | data_interrogator/views/views.py:39-63 | results or the admin redirect happen exactly for a GET with a non-empty column and a valid form; the redirect happens exactly for staff asking `makestatic`; a GET with a non-empty column and an invalid form renders the bound form with its errors (`InvalidForm`); every other request renders the unbound form (`BlankForm`) |
| `Views.SplitQuery` | data_interrogator/views/views.py:89-101 | splitting is lossless: prefix followed by tail is the typed text, in every branch |
| `AutoCompleteProperties.SplitQueryPrecedence` | data_interrogator/views/views.py:89-101 | with a space the prefix ends in a space and the tail has none; else with `(` the prefix ends at the first `(`; else with `::` the prefix ends at the first `::`; with none of them the prefix is empty and the tail is the whole text |
| `PyStr.RFind` | data_interrogator/views/views.py:91-92 | finds the last occurrence of the character, and finds none exactly when the character is absent |
| `PyStr.FindFrom` | data_interrogator/views/views.py:94-101 | finds the first occurrence at or after the start index, or reports that there is none |
| `PyStr.ContainsIff` | data_interrogator/views/views.py:108 | `t in s` holds exactly when `t` occurs at some index of `s`; the empty text is in every text |
| `PyStr.Split` | data_interrogator/views/views.py:103 | a split has at least one piece and no piece contains the separator |
| `PyStr.JoinSplit` | data_interrogator/views/views.py:103 | joining the pieces of a split with the separator gives the text back |
| `PyStr.SplitJoin` | data_interrogator/views/views.py:116 | splitting a join of separator-free pieces gives the pieces back |
| `PyStr.Lower` | data_interrogator/views/views.py:108 | ASCII capitals become the matching small letters, every other character stays, and the length is kept |
| `Meta.FirstNamed` | data_interrogator/views/views.py:106 | yields nothing exactly when no field carries the name, else a field of the list carrying it |
| `Meta.FirstNamedIsFirst` | data_interrogator/views/views.py:106 | the field yielded is the earliest one carrying the name |
| `Views.WalkPath` | data_interrogator/views/views.py:103-106 | the loop over the path segments computes the walk `Resolve`, failures included |
| `AutoCompleteProperties.ResolveAppend` | data_interrogator/views/views.py:104-106 | walking a path in two pieces is walking the first piece, then the second from the model it reached; a failure in the first piece is the answer |
| `AutoCompleteProperties.UnknownSegmentFails` | data_interrogator/views/views.py:104-106 | a path segment naming no field of the model reached so far makes the request fail, never an empty answer |
| `Seqs.Filter` | data_interrogator/views/views.py:108 | an element is in the result exactly when it is in the input and satisfies the condition, and the result is never longer than the input |
| `Seqs.FilterCounts` | data_interrogator/views/views.py:108 | every value satisfying the condition occurs in the result as often as in the input, and no other value occurs |
| `Seqs.FilterIsSubsequence` | data_interrogator/views/views.py:108 | a filter keeps the order of what it keeps |
| `Seqs.FilterFilter` | data_interrogator/views/views.py:108-115 | the name filter followed by the exclusion skips is one filter on the conjunction |
| `Views.Matching` | data_interrogator/views/views.py:108 | keeps exactly the fields whose name contains the needle, every copy of each, in the order of the field list (a subsequence of it) |
| `Views.BuildSuggestions` | data_interrogator/views/views.py:110-142 | the loop with its two `continue` skips computes `Records`: the records of the kept fields, or the first failure |
| `AutoCompleteProperties.RecordsOfKept` | data_interrogator/views/views.py:110-142 | the records are one per non-skipped field, in order; the list fails exactly when some kept field's record fails |
| `AutoCompleteProperties.AutoCompleteSuggests` | data_interrogator/views/views.py:108-142 | for a resolved path the suggestions are exactly the records of the model's fields whose name contains the lower-cased last segment and which are not excluded (by field or by related model), in schema order, a subsequence of the field list |
| `Views.Get` | data_interrogator/views/views.py:76-147 | a model name that fails validation, or an empty one, gets the blank answer; otherwise the answer is the autocomplete specification |
| `AutoCompleteProperties.QueryIsStemAndLookup` | data_interrogator/views/views.py:89-103 | the typed text is the prefix, the typed path with its dots, then the last segment |
| `AutoCompleteProperties.ValueCompletesQuery` | data_interrogator/views/views.py:116-137 | a record's lookup is the last typed segment, and its value is the typed text with that segment replaced by the field's name |
| `AutoCompleteProperties.NameSplitsBack` | data_interrogator/views/views.py:116 | a record's name, split on dots, is the typed path followed by the field's name (for a dot-free field name) |
| `Views.Describe` | data_interrogator/views/views.py:116-141 | a record fails exactly for a non-column field without a usable related model; otherwise `is_relation` is true exactly for non-column fields, columns keep their own help text, relations take the relation help text, and the datatype is the field's |
| `Views.RelationHelp` | data_interrogator/views/views.py:118-127 | fails exactly when the field has no related model in the schema; an empty `__doc__` gives the "Related model - " text, any other gives the cleaned docstring |
| `Views.DataType` | data_interrogator/views/views.py:130-133 | the field's internal type when it reports one, else the many-to-many label |
| `Views.AutoComplete` | data_interrogator/views/views.py:81-142 | a model name that fails validation, or an empty one, gives the blank answer; a path walk that fails makes the whole answer that failure |
| `AutoCompleteProperties.DescribeHelp` | data_interrogator/views/views.py:117-133 | `is_relation` is true exactly for fields that are not the model's own columns; these take a help line from the related model's docstring that is well spaced and holds exactly that first line's words, or the "Related model - " text when its `__doc__` is empty; columns keep their own help text; the datatype falls back to the many-to-many label; a record fails exactly for a non-column field without a usable related model |
| `Views.FirstLine` | data_interrogator/views/views.py:124 | the first line after leading newlines: a newline-free prefix of the stripped text, ended by a newline or by the end |
| `PyStr.LStrip` | data_interrogator/views/views.py:124 | drops exactly the leading run of the character |
| `PyStr.Translate` | data_interrogator/views/views.py:125-126 | keeps the length and every character from code point 5 up; code points 0 to 4 become tab, line feed, carriage return, vertical tab and form feed, the entries of the table built at line 125 |
| `PyStr.CollapseSpaces` | data_interrogator/views/views.py:127 | the result is well spaced and splits on spaces into exactly the non-empty pieces of the input (empty when there are none) |
| `PyStr.CollapseSpacesTidy` | data_interrogator/views/views.py:127 | the result has no leading, trailing or doubled space, has, spaces aside, the same characters in the same order, and splits on spaces into exactly the input's words when it has any (it is empty otherwise) |
| `Views.CleanDoc` | data_interrogator/views/views.py:124-127 | the help line is well spaced and splits on spaces into exactly the words of the translated first docstring line when that line has any (it is empty otherwise) |
| `AutoCompleteProperties.CleanDocTidy` | data_interrogator/views/views.py:124-127 | the relation help text is well spaced, splits on spaces into exactly the words of the translated first docstring line when it has any (it is empty otherwise) and, spaces aside, is that line; without code points below 5 it has no newline |

## Left out

- Django's request, response, template rendering, `redirect`, `reverse` and `QueryDict.urlencode`, and `json.dumps`. They are framework I/O. The answer is a sequence of records, and the table view's outcome is a tag.
- The interrogator, `validate_report_model`, `is_excluded_field`, `is_excluded_model`, `normalise_field` and the investigation form. They are defined in files that are not part of this model. They are parameters: the fields of `Interrogator` and the `formValid` flag of `TableView`.
- The interrogation itself and the admin URL built for `makestatic` (lines 51-61). `TableView` only says which branch is taken.
- Live metadata reflection (`_meta.get_fields()`, `_meta.fields`, `get_internal_type()`, `__doc__`). The schema of `Meta` stands in for it. Validation returns a model name, and a name missing from the schema gives `UnknownModel`, which the ORM never produces.
- The rendering of `_meta.get_verbose_name` (line 122). It formats an uncalled bound method, so the model treats it as an opaque per-model string, `verboseName`.
- A non-column field without a related model (line 119). The model makes it a failure (`NoRelatedModel`): `None.__doc__` is `None` on the Python versions of the time (3.12 and earlier), so `not help_text` takes the fallback, which reads `None._meta` and raises. Newer Pythons document `NoneType`, and that case would render as text instead.
- A path segment whose field has no related model makes the next step read `None._meta` and raise. The model reports this at the segment itself (`NotARelation`). Either way the request fails.
- `PyStr.Lower`: only ASCII letters are lower-cased. Python's full Unicode case mapping is not modelled.
- `InterrogationAutocompleteUrls` (lines 150-182), `get_allowed_fields` and the mixin's interrogator construction. These are URL wiring and default copying.
