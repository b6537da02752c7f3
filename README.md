# dnppy `convert`: a verified model

This project models the core of `dnppy`'s `convert` module, written in Dafny:

- **`date_to_julian` / `julian_to_date`.** These convert between a calendar date and a Julian
  (ordinal) day of the year. The source lets `datetime.strptime`/`strftime` with `%j` do the work.
  The model states that work as proleptic Gregorian arithmetic: a year is a leap year when it is
  divisible by 4, except centuries not divisible by 400. The ordinal date is the one of section
  4.1.3 of ISO 8601:2004. The model also captures the zero-padded text the source returns (`%j`
  gives three digits, `%m` and `%d` give two) and the `ValueError`s that `strptime` and Python 2's `strftime` raise.
- **`HDF`.** This is the batch loop that extracts every requested layer of every HDF file into its
  own TIFF. Each layer gets a directory named after the layer. A file is recorded once for each
  layer whose extraction fails, and the loop carries on.
- **`NetCDF`.** This converts each NetCDF file to a TIFF named after the input path. It has no
  failure isolation. Its returned failure list is always empty.

Modules (one file each):

- `Results`: `Option` and `Result`.
- `PyText`: the Python string behaviour the source depends on. It covers `str(n)` of an integer,
  `str.zfill`, the slice `s[:-k]`, and the value of a digit string.
- `PosixPath`: `os.path.join` and `os.path.split` as the POSIX `posixpath` module defines them,
  with `/` as the separator.
- `JulianDate`: the two date functions and the calendar arithmetic under them.
- `HdfExtract`: `HDF`.
- `NetCdfConvert`: `NetCDF`.

How the outside world is modelled:

- The GIS toolkit (`arcpy`) is a parameter, not code. Whether `ExtractSubDataset_management`
  succeeds is an oracle `extractOk(infile, outname, selector)`. Whether a NetCDF conversion
  succeeds is an oracle `convertOk(infile, outname)`.
- Some of the calls the source makes are recorded, in order, in a `calls` trace:
  - setting `arcpy.env.workspace`;
  - `os.makedirs`;
  - `ExtractSubDataset_management` in `HDF`;
  - the conversion of one file in `NetCDF`.
  Other calls are not in the trace: `os.path.split` (a pure function here), `os.path.exists`,
  `arcpy.env.overwriteOutput = True` and `core.Check_Spatial_Extension()`.
- The filesystem is the set of directories that exist. The `os.path.exists` test is membership
  in that set. `HDF` receives the set and returns the updated one.
- `Hdf` is a method whose nested loops follow the source. It is proved equal to a functional
  specification, `HdfRun`. The properties are lemmas about `HdfRun`.
- `NetCdf` is a method proved against `FirstFailure`, the index of the first file whose
  conversion fails.

Where the code and its documentation disagree, the model follows the code:

- `julian_to_date` does not check `j_day` against the length of the year. `strptime` accepts any
  day from 1 to 366 and counts it from January 1. Day 366 of a common year is therefore January 1
  of the next year. Only year 9999 raises, because that date would fall after the largest date.
  Days outside 1 to 366, such as the docstring's own example `julian_to_date(2014, 399)`, do not
  match `%j` and raise.
- `date_to_julian` and `julian_to_date` parse only years from 1000 to 9999. Other years raise,
  because `str(year)` must match the four digits of `%Y`.
- The source is Python 2 (it uses `print` statements). Python 2's `datetime.strftime` raises
  `ValueError` for a date before 1900. So `date_to_julian` raises for any year before 1900, after
  parsing. `julian_to_date` raises whenever the date it reads is before 1900. The one exception
  is day 366 of 1899, which rolls over to 1 January 1900 and succeeds.
- The model treats every one of these failures as an error result, not a precondition.
- `NetCDF` writes each TIFF to `infile[:-3] + ".tif"`. That is the whole input path, so the
  workspace `outdir` only matters for a relative input path. An absolute input path puts the TIFF
  beside the input, not in `outdir`.

## Model

| member | source | states |
|---|---|---|
| `JulianDate.DaysInMonth` | dnppy_0.0.4/dnppy_install/convert/convert.py:195-196 | A month has 28 to 31 days. It has 29 exactly for February of a leap year. |
| `JulianDate.DaysBeforeMonthStep` | dnppy_0.0.4/dnppy_install/convert/convert.py:196-197 | The cumulative-days table agrees with the month lengths. The twelve months fill the year exactly: 365 or 366 days. |
| `JulianDate.DaysBeforeMonthIncreasing` | dnppy_0.0.4/dnppy_install/convert/convert.py:196-197 | Later months start strictly later in the year. |
| `JulianDate.DayOfYear` | dnppy_0.0.4/dnppy_install/convert/convert.py:196-197 | The ordinal day of a valid date falls within its own month's span, and lies between 1 and the length of the year. |
| `JulianDate.MonthOfDay` | dnppy_0.0.4/dnppy_install/convert/convert.py:224-226 | Finds the month whose span of ordinal days contains the given day. |
| `JulianDate.DateOfDay` | dnppy_0.0.4/dnppy_install/convert/convert.py:224-226 | For each day of the year gives a valid date whose ordinal day is that day (right inverse of `DayOfYear`). |
| `JulianDate.DateOfDayOfYear` | dnppy_0.0.4/dnppy_install/convert/convert.py:175-228 | `DateOfDay` undoes `DayOfYear` on every valid date (left inverse), so the two calendars are in one-to-one correspondence. |
| `JulianDate.DateToJulian` | dnppy_0.0.4/dnppy_install/convert/convert.py:175-199 | `date_to_julian`: parse, check the date exists, check the year for `strftime`, then write `%j`. Its contract is stated by `DateToJulianSpec`, `DateRoundTrip` and `JulianRoundTrip`. |
| `JulianDate.JulianToDate` | dnppy_0.0.4/dnppy_install/convert/convert.py:203-228 | `julian_to_date`: parse, roll day 366 of a common year over, check the year for `strftime`, then write `%m` and `%d`. Its contract is stated by `JulianToDateSpec`, `JulianToDateRollover` and both round trips. |
| `JulianDate.DateToJulianSpec` | dnppy_0.0.4/dnppy_install/convert/convert.py:175-199 | `date_to_julian` succeeds exactly for real dates in the years 1900 to 9999. The result is three digits whose value is the date's ordinal day, from "001" to "366". A date that parses but does not exist (day 31 of a 30-day month, or February 29 of a common year) raises the day-out-of-range error. A real date of a four-digit year before 1900 raises the `strftime` year error. |
| `JulianDate.JulianToDateSpec` | dnppy_0.0.4/dnppy_install/convert/convert.py:203-228 | `julian_to_date` fails in exactly these cases: `j_day` is outside 1 to 366; the year is not four digits; it is day 366 of 9999; or the year is before 1900, except day 366 of 1899. Years 1000 to 1899 raise the `strftime` year error. On a day of a year from 1900 on, it returns two two-digit strings naming the valid date with that ordinal day. |
| `JulianDate.JulianToDateRollover` | dnppy_0.0.4/dnppy_install/convert/convert.py:223-226 | Day 366 of a common year from 1899 to 9998 gives ("01", "01"), which is January 1 of the following year. |
| `JulianDate.DateRoundTrip` | dnppy_0.0.4/dnppy_install/convert/convert.py:175-228 | For every valid date from 1900 to 9999, `julian_to_date` applied to the day `date_to_julian` writes gives back the month and day as two-digit strings. |
| `JulianDate.JulianRoundTrip` | dnppy_0.0.4/dnppy_install/convert/convert.py:175-228 | For every day of a year from 1900 to 9999, `date_to_julian` applied to the month and day `julian_to_date` writes gives back the day as three digits. |
| `JulianDate.ExampleDecember5` | dnppy_0.0.4/dnppy_install/convert/convert.py:188-190 | `date_to_julian(2014, 12, 5)` is "339". |
| `JulianDate.ExampleLeapDay` | dnppy_0.0.4/dnppy_install/convert/convert.py:195-197 | 2016-02-29 is "060". 2015-02-29 and 2014-04-31 raise the day-out-of-range error. |
| `JulianDate.ExampleJulianDay` | dnppy_0.0.4/dnppy_install/convert/convert.py:216-226 | Day 34 of 2015 is ("02", "03"). The docstring's `julian_to_date(2014, 399)` raises the format error. |
| `JulianDate.ExampleBefore1900` | dnppy_0.0.4/dnppy_install/convert/convert.py:195-226 | `date_to_julian(1899, 12, 31)`, `julian_to_date(1899, 1)` and `julian_to_date(1500, 366)` raise the `strftime` year error. `julian_to_date(1899, 366)` gives ("01", "01"). |
| `PyText.Decimal` | dnppy_0.0.4/dnppy_install/convert/convert.py:146 | `str(n)` is a non-empty digit string. It has no leading zero, except for the string "0". |
| `PyText.DecimalRoundTrip` | dnppy_0.0.4/dnppy_install/convert/convert.py:146 | Reading back the digits `str(n)` writes gives `n`. |
| `PyText.DecimalLength` | dnppy_0.0.4/dnppy_install/convert/convert.py:197 | A number below 10^w has at most w digits. |
| `PyText.ZFill` | dnppy_0.0.4/dnppy_install/convert/convert.py:146 | `str.zfill`. Its contract is stated by `ZFillDigits` and `ZFillChars`. |
| `PyText.ZFillDigits` | dnppy_0.0.4/dnppy_install/convert/convert.py:146 | `zfill` of a digit string has length max(len, width), ends with the original, consists of digits and keeps the value. |
| `PyText.ZeroPaddedDigits` | dnppy_0.0.4/dnppy_install/convert/convert.py:197-226 | The `%0Nd` rendering of a number below 10^N is exactly N digits and reads back as the number. |
| `PyText.ZFillChars` | dnppy_0.0.4/dnppy_install/convert/convert.py:146 | `zfill` never shortens its argument. It adds only '0' characters. |
| `PyText.DropLast` | dnppy_0.0.4/dnppy_install/convert/convert.py:152 | `s[:-k]` is the prefix of `s` that is `k` characters shorter, or empty when `s` is shorter than `k`. |
| `PosixPath.Join` | dnppy_0.0.4/dnppy_install/convert/convert.py:150-156 | `os.path.join` of two parts. Its contract is stated by `JoinEndsWith`, `JoinTail` and `SplitJoin`. |
| `PosixPath.Split` | dnppy_0.0.4/dnppy_install/convert/convert.py:136 | `os.path.split`. Its contract is stated by `SplitTail`, `SplitJoin`, `TailStartFacts` and `RStripSepFacts`. |
| `PosixPath.TailStartFacts` | dnppy_0.0.4/dnppy_install/convert/convert.py:136 | The character before the split point is a separator, and nothing after it is. |
| `PosixPath.RStripSepFacts` | dnppy_0.0.4/dnppy_install/convert/convert.py:136 | Stripping the head gives a prefix of it that does not end in a separator. Every character removed is a separator. |
| `PosixPath.SplitTail` | dnppy_0.0.4/dnppy_install/convert/convert.py:136 | The name part of `os.path.split` is a suffix of the path and contains no separator. |
| `PosixPath.SplitJoin` | dnppy_0.0.4/dnppy_install/convert/convert.py:136-156 | `os.path.split` undoes `os.path.join(dir, name)` when `name` is a single component and `dir` does not end in a separator. |
| `PosixPath.JoinEndsWith` | dnppy_0.0.4/dnppy_install/convert/convert.py:150-156 | Joining with a non-empty single component ends with that component, so the result does not end in a separator. |
| `PosixPath.JoinTail` | dnppy_0.0.4/dnppy_install/convert/convert.py:150-156 | The last component of `join(base, n)` is `n`, for a non-empty single component `n`. |
| `HdfExtract.LayerName` | dnppy_0.0.4/dnppy_install/convert/convert.py:124-146 | The name of layer k: the k-th given name, or `str(layer).zfill(3)`. Its contract is stated by `SynthesizedLayerName` and `GivenLayerName`. |
| `HdfExtract.MakeJob` | dnppy_0.0.4/dnppy_install/convert/convert.py:136-161 | The directory, file name, output path and selector of one (file, layer) pair. Its contract is stated by `OutputPath` and `ExampleOutputPath`. |
| `HdfExtract.HdfRun` | dnppy_0.0.4/dnppy_install/convert/convert.py:131-171 | The specification of `HDF`: the run over all pairs. Its contract is stated by `HdfRunFacts`, `HdfFailedFacts` and `AllJobsAt`, and `Hdf` is proved equal to it. |
| `HdfExtract.Hdf` | dnppy_0.0.4/dnppy_install/convert/convert.py:95-171 | The two loops give exactly `HdfRun`. The returned list is the input file of each failing pair, in order. The extraction calls are those of all pairs, in order. The new directory set is the old one plus every layer directory. Each directory is created only if missing, and exists before any extraction into it. |
| `HdfExtract.ExtractFiles` | dnppy_0.0.4/dnppy_install/convert/convert.py:134-171 | The outer loop over the input files, with the adjusted name list, produces exactly `HdfRun`: one outer iteration per file, in input order. |
| `HdfExtract.ExtractLayers` | dnppy_0.0.4/dnppy_install/convert/convert.py:134-168 | One outer iteration sets the workspace to the file's directory, then performs one step per requested layer, in layer order. |
| `HdfExtract.ExtractLayer` | dnppy_0.0.4/dnppy_install/convert/convert.py:139-168 | One inner iteration performs one step (`Step`) of the pair: name the layer, create its directory if absent, attempt the extraction, and append the file on failure. |
| `HdfExtract.HdfRunFacts` | dnppy_0.0.4/dnppy_install/convert/convert.py:131-171 | For every input and oracle, the same facts as `Hdf`, stated about the specification `HdfRun`. |
| `HdfExtract.StepEffects` | dnppy_0.0.4/dnppy_install/convert/convert.py:149-168 | One pair adds its layer directory, one extraction call, and its input file to the failed list exactly when the extraction fails. |
| `HdfExtract.StepConsistent` | dnppy_0.0.4/dnppy_install/convert/convert.py:149-161 | One pair creates its directory only if it does not exist, and the directory exists when the extraction is made. |
| `HdfExtract.AllJobsAt` | dnppy_0.0.4/dnppy_install/convert/convert.py:134-140 | There are \|files\| × \|layers\| pairs. Pair i·\|layers\|+k is layer k of file i: files in input order, layers in order within each file. |
| `HdfExtract.FailedInfilesFacts` | dnppy_0.0.4/dnppy_install/convert/convert.py:165-168 | The failed list has one entry per failing pair, with no deduplication. Each entry is the input file of a failing pair. |
| `HdfExtract.HdfFailedFacts` | dnppy_0.0.4/dnppy_install/convert/convert.py:131-171 | The returned list is as long as the number of failing pairs, and every element is one of the input files. |
| `HdfExtract.SynthesizedLayerName` | dnppy_0.0.4/dnppy_install/convert/convert.py:124-146 | A name list that is missing or has the wrong length is dropped without an error. Every name then becomes `str(layer).zfill(3)`: at least 3 characters, with no separator. For a layer from 0 to 999 it is exactly 3 digits that read back as the layer. |
| `HdfExtract.GivenLayerName` | dnppy_0.0.4/dnppy_install/convert/convert.py:143-144 | When the name list fits, layer k takes the k-th name. |
| `HdfExtract.OutputPath` | dnppy_0.0.4/dnppy_install/convert/convert.py:136-156 | For a layer name that is non-empty and contains no separator: the layer directory is `join(base, layername)`, with `base` either `outdir` or the input's directory, and its last component is that name. The output path is `join(layer directory, file name)`. `os.path.split` of it gives back that directory and the file name `name[:-4] + '_' + layername + '.tif'`. |
| `HdfExtract.ExampleOutputPath` | dnppy_0.0.4/dnppy_install/convert/convert.py:148-156 | `/data/MOD09.hdf`, layer 4, no names and no `outdir` give `/data/004/MOD09_004.tif` in directory `/data/004`, with the sub-dataset selector "4". |
| `HdfExtract.ExampleOneFailure` | dnppy_0.0.4/dnppy_install/convert/convert.py:159-168 | One file with three layers, of which only the second fails: the returned list is that file, once. There are exactly three extraction calls, one per layer in order. |
| `NetCdfConvert.FirstFailure` | dnppy_0.0.4/dnppy_install/convert/convert.py:81-85 | Every file before the returned index converts, and the file at the index (if any) fails. |
| `NetCdfConvert.FirstFailureUnique` | dnppy_0.0.4/dnppy_install/convert/convert.py:81-85 | That index is the only one with this property. |
| `NetCdfConvert.NetCdf` | dnppy_0.0.4/dnppy_install/convert/convert.py:60-91 | The workspace is set to `outdir`. Then the files are converted, in order, up to the first that fails. The function raises at that file, or returns an empty failure list when none fails. |
| `NetCdfConvert.OutName` | dnppy_0.0.4/dnppy_install/convert/convert.py:85 | The TIFF name of one NetCDF file. Its contract is stated by `OutNameFacts` and `ExampleOutName`. |
| `NetCdfConvert.OutNameFacts` | dnppy_0.0.4/dnppy_install/convert/convert.py:85 | The TIFF name is the input path with its last three characters replaced by ".tif". |
| `NetCdfConvert.ExampleOutName` | dnppy_0.0.4/dnppy_install/convert/convert.py:85 | "/data/trmm.nc" is written to "/data/trmm.tif". |

## Left out

- `HDF5`: an unfinished stub that only opens files with `h5py` and prints a message. It has no logic to model.
- `null_define` (`dnppy/raster/null_define.py`): one toolkit call per raster plus a print. It is not part of this model.
- All `arcpy` calls are results of oracle parameters, not code. This covers `MakeNetCDFRasterLayer_md`, `CopyRaster_management`, `ExtractSubDataset_management` and `SetRasterProperties_management`. The settings `env.workspace` and `overwriteOutput` and the `Check_Spatial_Extension` check are also outside the model. The workspace assignments are recorded in the call trace but not interpreted.
- `NetCdf`: the two toolkit calls per file are one `Convert` call with one oracle. The model does not say which of the two failed.
- The extraction oracle does not depend on filesystem state, so the model cannot express an extraction that fails because of what is on disk.
- `core.Enforce_List` is not part of this model. The model assumes a list comes in, and represents a missing `layernames` or `outdir` (`False`) as `None`. Python's truthiness is modelled: an empty name list or an empty `outdir` counts as missing.
- The filesystem is a set of existing directory paths. `os.makedirs` adds one path. The model leaves out intermediate parent directories, paths that exist as files, and `makedirs` errors, which the source does not catch.
- `os.path` behaves as POSIX `posixpath` with `/`. Windows drive letters and the second separator of `ntpath` are left out.
- Print output and the `Quiet` flag are left out.
- OutputPath: user layer names that are empty or contain `/` are not covered. The source accepts them; `"a/b"`, for example, gives a nested directory whose last component is `"b"`.
- `JulianDate.DateToJulianSpec`: the arguments are integers. Years, months and days passed as strings are not modelled. `str` of a string is the string itself, so a zero-padded month such as "02" also satisfies `%m`. The round-trip lemmas therefore pass the digit strings back through their integer value.
