/** The records the views work on. */
module DataItems {

  /**
   One row of the dataset, every field as the text the loader produced:
   'Asset Name', 'Business Category', 'Risk Rating' (a decimal number),
   'Risk Factors' (JSON object text), 'Year' (an integer), 'Lat' and 'Long'.
   */
  datatype DataItem = DataItem(
    assetName: string,
    businessCategory: string,
    riskRating: string,
    riskFactors: string,
    year: string,
    lat: string,
    long: string)
}
